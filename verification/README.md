# smARTmatch: a verified model of the synchronisation protocol and the matching pipeline

This Dafny project models the parts of smARTmatch whose correctness spans several
functions, processes or database states, and proves what they are relied on for.

**Telemetry synchronisation.** The sender lists every match of one repeatable-read
snapshot, posts hashes of the replication graph, lets the receiver say what it
needs, re-reads that in a second, later snapshot, checks it against what it
advertised, and sends bounded pages. `Artworks`, `Tables`, `Sequences`,
`SyncErrors`, `SyncBudget`, `SyncGraph`, `SyncClosures`, `SyncCatalog`,
`SyncInventory`, `SyncData`, `SyncSpooler`, `SyncHttp`, `SyncChannel` and `SyncDelivery` follow the
files of `telemetry/`. The main results: `SyncDelivery.Deliver` (a run that returns
has sent the closures it advertised, for exactly what the receiver's
acknowledgements asked for, whatever happened to the database, the disk and the
receiver), `SyncDelivery.EveryPostedDataPageIsSound` (also in a run that fails,
each data page that was ever posted was spooled and verified for that request,
after the whole true inventory was acknowledged), `SyncGraph.BatchIndependence`
(how a batch is cut never shows in a hash), `SyncData.ExactDelivery` (when the
request is answered exactly) and `SyncData.VanishedPairsReportedExactly` (when a
vanished match is noticed).

**Image matching.** `ContentVersions` interleaves scraper changes, the database
triggers and any number of pipeline runs; `MatchScores` and `LinkFinalization`
are the score join and the roll-up of processed flags; `EmbeddingCache` and
`PreparationQueue` are the embedding cache and the sliding window of prepared
images.

**Processes.** `ScraperLeases` and `TelemetryDaemon` are state machines over all
interleavings and all input sequences.

**Tree hashing.** `TreeHashing` proves the directory hash faithful with no
assumption on the digest function but that its text holds no NUL: equal hashes mean
equal trees, or the lemma returns two texts, one hashed for each tree, that differ
and have the same digest.

How the model idealises its surroundings:

- The canonical hash of a closure, and the content hash of a page or an image, are
  idealised as injective (a digest carries its value). The tree hash is not: its
  digest function is an arbitrary parameter.
- Lengths of canonical JSON and of gzip output are arbitrary functions; free disk
  space, the catalog file's size, the receiver's replies, worker exits and the
  clock are arbitrary scripts.
- An image file may change at any time. A run of the embedding cache reads files
  one after another, and each read sees the bytes listed for its own time.
- A database snapshot is a value; a table is a sequence of rows in primary-key
  order, and a query returns the rows whose key is in a set. Row data that no
  modelled code inspects is one number. UUIDs are numbers in the order of their
  canonical text; link tables are keyed by artwork.
- Scores are reals; vectors are abstract.
- The database triggers are modelled as written in
  `db/init-production/01_schema_production.sql`. Replacing an image file and
  recording its digest is one step.

Where the code does less than one might expect, the model keeps the code, and the
exact condition is proved:

- Current row hashes must still match the advertised inventory
  (`telemetry/README.md:95`). But when a batch is split before it was loaded, the
  expectation of the whole batch is dropped (`telemetry/sync_data.py:221-233`,
  `telemetry/sync_data.py:298-316`), so a requested match that has vanished in
  between goes unnoticed. `SyncData.VanishedPairsReportedExactly` says when: with
  rows fetched and room for a page, the changed snapshot is reported by this batch
  exactly if the closure estimate of the rows left is within the limit; above it,
  the outcome is that of the split, or the lone row left is unsendable.
  `SyncDataGap.VanishedMatchGoesUnnoticed` gives a concrete run, and
  `SyncData.ExactDelivery` what it costs: a finished run answers the request in
  full if and only if every requested pair is still there.
- A stored image score outlives a replacement of its auction image made while the
  image was unlinked from the artwork. `ContentVersions.StepStales` and
  `ContentVersions.StoredScoresAreCurrent` say that a score is stale exactly if such
  a replacement hit it and nothing since removed or renewed it;
  `ContentVersions.RelinkedImageKeepsStaleScore` gives a run.
- A date that is left and returned to lets the daemon repeat a daily attempt.
  `TelemetryDaemons.OneDailyPerDateExactly`: a sequence of dates excludes that, for
  all workers, launches and configurations, exactly if past the first iteration no
  date is left and later returned to. `TelemetryDaemons.ClockGoingBackRepeatsADaily`
  gives a run.
- A no-op exit (79) of the startup worker counts as a transient failure
  (`TelemetryDaemons.StartupSettlesWithCause`).
- A file that changes and reverts within one run defeats the embedding cache's
  check. `EmbeddingCaches.AgreementExactly`: a successful run agrees with
  regeneration exactly if, for every row it generated, the bytes it embedded give
  the vector of the fingerprinted ones; for a model that tells contents apart,
  exactly if none of these files changed for its second read and changed back for
  its third. `EmbeddingCaches.ChangeAndRevertIsInvisible` gives a run.

## Model

| member | source | states |
|---|---|---|
| SyncGraph.BatchIndependence | telemetry/sync_graph.py:14-278 | whatever else a batch contains, every hash it yields is the one computed from the whole snapshot, and it covers exactly the rows and artworks asked for; no foreign keys needed |
| SyncGraph.LostClosureBatchIndependent | telemetry/sync_graph.py:14-278 | a batch loads everything a lost artwork's closure refers to, and the closure ignores the rest |
| SyncGraph.AuctionClosureBatchIndependent | telemetry/sync_graph.py:14-278 | the same for an auction artwork |
| SyncGraph.MatchClosureBatchIndependent | telemetry/sync_graph.py:14-278 | the same for a match |
| SyncGraph.TrueHashesAgree | telemetry/sync_graph.py:169-278 | two hash listings of one snapshot never disagree, so ignoring repeated inserts hides nothing |
| SyncGraph.BuildDataContent | telemetry/sync_graph.py:14-166 | succeeds exactly when the closure fits the materialisation budget, and then returns the closure with its hashes |
| SyncGraph.FetchTable | telemetry/sync_queries.py:11-67 | reserve the size first; return exactly the rows with the given ids in order, or fail exactly when they do not fit |
| SyncGraph.ReplicationGraphHashes | telemetry/sync_graph.py:169-278 | fills the three hash dictionaries of the loaded graph |
| SyncClosures.LostClosureDetermines | telemetry/sync_graph.py:169-278 | equal hashes of lost artworks mean the same artwork row and, as plain rows, the same artists, institution and literature it names, their places, its links and the images linked |
| SyncClosures.AuctionClosureDetermines | telemetry/sync_graph.py:169-278 | the same for auction artworks: artist, places, platform, auctioneer, expert, links and images |
| SyncClosures.MatchClosureDetermines | telemetry/sync_graph.py:169-278 | the same for scores: both programs and the best image |
| SyncClosures.LoadsTheArtworks | telemetry/sync_graph.py:14-166 | a batch carries exactly the artworks asked for that there are, with their links |
| SyncClosures.LoadsTheReferences | telemetry/sync_graph.py:14-166 | besides them it carries exactly the rows that rows on it refer to |
| SyncClosures.VisibleRows | telemetry/sync_queries.py:150-175 | the queries show every table as it is, but for the digest of processed image files |
| SyncBudget.WorkspaceBudget.WriteRawPage | telemetry/sync_codec.py:140-163 | a page is reserved before it is written; either both counters and the directory grow, or nothing does; the running total stays equal to a rescan |
| SyncBudget.WorkspaceBudget.RefreshCatalog | telemetry/sync_budget.py:75-81 | after a catalog commit the running total accounts for the file's present size |
| SyncBudget.WorkspaceBudget.EnsureCapacity | telemetry/sync_budget.py:100-115 | page, quota and free-space checks, with reserved pages |
| SyncBudget.WorkspaceBudget.NextPageMaterializationLimit | telemetry/sync_budget.py:117-129 | what the workspace and the disk leave for one page, at most what was requested |
| SyncBudget.TransferBudget.Debit | telemetry/sync_budget.py:22-33 | attempted bytes never exceed the limit; a refused debit changes nothing |
| SyncCatalogs.SyncCatalog.Record | telemetry/sync_catalog.py:66-88 | hashes already advertised stay; new ones are added; the workspace total is refreshed |
| SyncCatalogs.SyncCatalog.Request | telemetry/sync_catalog.py:90-156 | an accepted acknowledgement requests exactly what was requested before and what its items name, artworks on their own or as ends of matches; a rejected one leaves every table as it was |
| SyncCatalogs.AcceptedRequests | telemetry/sync_catalog.py:258-330 | exactly which acknowledgements are accepted: against a page every item must be spelled as on it, against the whole inventory it must be an advertised identifier |
| SyncCatalogs.RequestsWhatIsAsked | telemetry/sync_catalog.py:90-156 | as a law of the catalog's value: for every identifier, requested afterwards if and only if requested before or named by an item |
| SyncCatalogs.SyncCatalog.VerifyContent | telemetry/sync_catalog.py:209-255 | succeeds exactly when the hashed identifiers are the expected ones and every hash equals the advertised one |
| SyncCatalogs.HistoryKeepsInvariant | telemetry/sync_catalog.py:66-156 | after any disciplined history of calls: requests are within what was advertised, and both endpoints of a requested match are requested |
| SyncCatalogs.ReRecordingIsIdempotent | telemetry/sync_catalog.py:66-88 | recording a page again, after any further history, changes nothing |
| SyncInventory.SplitHashesAgree | telemetry/sync_inventory.py:108-171 | hashing a batch in two parts and merging gives what hashing it at once gives |
| SyncInventory.DescribedOnce | telemetry/sync_inventory.py:108-171 | a snapshot has one description of a set of pairs, however it was computed |
| SyncInventory.NextRows | telemetry/sync_inventory.py:174-199 | the cursor left by the first n rows fetches the rows after them, none twice and none skipped |
| SyncInventory.InventoryEstimateCovers | telemetry/sync_inventory.py:108-171 | the estimate of a listed batch covers every row loaded for it |
| SyncInventory.InventorySpooler.AddInventoryHashes | telemetry/sync_inventory.py:108-171 | merges the true hashes of exactly these pairs, however often the batch was halved; a missing hash means a missing endpoint; unsendable means one lone pair whose closure exceeds the room found by the last probe |
| SyncInventory.InventorySpooler.SpoolPage | telemetry/sync_inventory.py:48-72 | one page of at most 1000 pairs, hashed 100 at a time, recorded and written, with room left for one more page |
| SyncInventory.InventorySpooler.SpoolInventoryPages | telemetry/sync_inventory.py:30-105 | every match of the snapshot is listed once, in key order, with its true hashes, and advertised, on pages of exactly 1000 but for the last; a data page still fits; with foreign keys no hash is missing |
| SyncData.SplitKeepsItems | telemetry/sync_data.py:287-338 | splitting keeps every item exactly when the batch is not mixed and is not one lone row |
| SyncData.HalvesAreEven | telemetry/sync_data.py:287-338 | the halves differ by at most one item |
| SyncData.AttemptsExactly | telemetry/sync_data.py:182-284 | exactly when a batch is sent whole, split, or ends the run with a changed snapshot, an unsendable closure or a full workspace |
| SyncData.FittingBatchIsOnePage | telemetry/sync_data.py:182-284 | a verified batch that fits is one page with all its items |
| SyncData.EstimateCoversEveryRow | telemetry/sync_data.py:182-241 | the estimate covers every row loaded, of whichever table, with 256 bytes besides its text |
| SyncData.ContentSpooledWell | telemetry/sync_data.py:182-338 | for every batch: the pages written hold exactly its items in order, each verified and within the limits; a page of several items is within 4 MiB; unsendable means one requested item that exceeds the room the last probe found, or a hard limit |
| SyncData.PairsSpooledWell | telemetry/sync_data.py:121-179 | the same for requested pairs: the pages hold exactly the rows still there |
| SyncData.DataPhaseSpooledWell | telemetry/sync_data.py:31-118 | the same for the whole phase, matches first, then artworks of their own; never no page, and no empty page but a lone one |
| SyncData.ExactDelivery | telemetry/sync_data.py:31-338 | each requested match still there is sent once, in order, and nothing else; matches and artworks are exactly those requested if and only if every requested pair is still there |
| SyncData.UnchangedDatabaseNeverRaises | telemetry/sync_data.py:31-338 | an unchanged database never raises the changed-snapshot error |
| SyncData.VanishedRowsReportedExactly | telemetry/sync_data.py:182-284 | a batch whose expectation names a row that is gone: the changed snapshot is reported exactly if the closure estimate is within the limit |
| SyncData.VanishedPairsReportedExactly | telemetry/sync_data.py:121-338 | for any fetched pairs of which some are gone: the changed snapshot is reported by this batch exactly if the closure of the rows left is within the limit; otherwise the result is that of the split or an unsendable row; success exactly if several rows are left, above the limit, and their split succeeds |
| SyncDataGap.VanishedMatchGoesUnnoticed | telemetry/sync_data.py:287-316 | a concrete run, with pages as long as their rows: three matches requested, two sent, no error |
| SyncSpooler.DataSpooler.SpoolDataContent | telemetry/sync_data.py:182-284 | loading, verification, measuring, splitting and writing in place compute the specified pages, counters and error |
| SyncSpooler.DataSpooler.SpoolRequestedMatchPairs | telemetry/sync_data.py:121-179 | the same for requested pairs |
| SyncSpooler.DataSpooler.SpoolDataPages | telemetry/sync_data.py:31-118 | the same for the whole phase, and the running total stays equal to a rescan |
| SyncHttp.PreflightPhasePages | telemetry/sync_codec.py:74-108 | succeeds exactly when every page of the phase can be encoded within the limits, and returns the sum of their compressed sizes |
| SyncHttp.RepliesAreJudgedExactly | telemetry/sync_http.py:129-234 | exactly which replies are accepted: a success naming this page, complete exactly for the last data page, unless that is taken on for later; every other reply is named for what it is |
| SyncHttp.PollsSayWhatTheyMean | telemetry/sync_http.py:246-379 | exactly which poll answers mean done, failed, still pending or a status error |
| SyncHttp.PagesAreChained | telemetry/sync_codec.py:33-108 | in every run a page names the content of the page acknowledged before it, and the last page of a phase lists the contents of all, in order |
| SyncHttp.NoDataBeforeInventoryAcknowledged | telemetry/sync_delivery.py:93-217 | in every run, also one that fails, a data page is posted only after every page of an encodable inventory got an accepted reply, as the next page of an encodable data phase whose earlier pages got one |
| SyncHttp.RetriesFollowTransientFailures | telemetry/sync_http.py:52-108 | in every run, a page is requested again only after an unreachable receiver or a status 408, 425, 429 or 5xx |
| SyncHttp.AtMostThreeAttempts | telemetry/sync_http.py:52-108 | no page is attempted more than three times |
| SyncHttp.NoFourthAttempt | telemetry/sync_http.py:52-108 | of any four requests in a run, not all are for one page |
| SyncHttp.SentWithinAttempted | telemetry/sync_delivery.py:54-242 | reported bytes are those of the acknowledged pages, once each, and never more than all attempts |
| SyncChannel.Channel.PostWithRetries | telemetry/sync_http.py:52-108 | up to three attempts, each debited first; success means the last reply to this page was accepted; a transient failure is given up only after the third attempt, any other at once |
| SyncChannel.Channel.WaitForAsyncApply | telemetry/sync_http.py:319-379 | success means a poll that reported this operation complete |
| SyncDelivery.TwoSnapshotSoundness | telemetry/sync_catalog.py:209-255 | every artwork and match on a spooled page has the row of the advertised snapshot and, for all it refers to, exactly its rows, whatever changed in between; nothing the page was cut for is missing |
| SyncDelivery.EnvelopeReserveSuffices | telemetry/sync_codec.py:74-108 | if an envelope adds at most the reserve, the preflight of spooled data pages cannot fail |
| SyncDelivery.SendInventoryPage | telemetry/sync_delivery.py:91-142 | one page is recorded again and acknowledged, and the catalog becomes what recording that acknowledgement's request gives, keeping the invariant and the accounting |
| SyncDelivery.DeliverInventory | telemetry/sync_delivery.py:33-145 | the inventory listed is the snapshot's, every page was accepted, and the request is the fold of the acknowledgements |
| SyncDelivery.AcknowledgementsRequestExactly | telemetry/sync_delivery.py:91-142 | over all acknowledgements of a run: requested is exactly what some of them name |
| SyncDelivery.AcknowledgementsStayWithin | telemetry/sync_delivery.py:91-142 | each acknowledgement but the last names only what the page it answers lists |
| SyncDelivery.ReleaseInventory | telemetry/sync_delivery.py:144-145 | releasing the inventory's bytes never fails and keeps the accounting |
| SyncDelivery.PrepareInventory | telemetry/sync_delivery.py:58-88 | nothing is sent before the whole inventory was spooled, encoded and found within the transfer limit |
| SyncDelivery.PrepareData | telemetry/sync_delivery.py:153-180 | nothing is sent before all data pages were spooled, verified and encoded and both phases are within the transfer limit; a changed-snapshot error means a change |
| SyncDelivery.EveryPostedDataPageIsSound | telemetry/sync_delivery.py:54-242 | in every run, also one that fails: a data page that was posted is a page spooled and verified for the receiver's own request, shows exactly the rows of the advertised snapshot for all it carries and refers to, and was posted after the whole true inventory was accepted |
| SyncDelivery.Deliver | telemetry/sync_delivery.py:33-252 | on every path the log is a legal run whose inventory, request and data pages are the reported ones, the request is the fold of the receiver's acknowledgements, and attempts stay within 4 GiB; on return the delivery is sound and exact, at most 4096 pages, bytes as preflighted, and the receiver reported completion; on failure the error is never a bad release, and a changed snapshot or a missing hash has its cause |
| TreeHashing.RecordIsDecodable | telemetry/tree_hashing.py:210-222 | a stream of records determines its first record and the rest |
| TreeHashing.UnreadableIsNoStream | telemetry/tree_hashing.py:164-169 | no listing encodes to the unreadable-directory text |
| TreeHashing.TreeHashIsFaithful | telemetry/tree_hashing.py:112-170 | two directories that look the same to the mode have the same hash; two with the same hash look the same, with equal file counts and byte totals, or two texts hashed for them, one for each, are returned that collide |
| TreeHashing.HashOfSeen | telemetry/tree_hashing.py:112-170 | nothing unseen reaches the hash; path and size mode never depends on contents |
| TreeHashing.CountsAreOfFiles | telemetry/tree_hashing.py:112-170 | the counts are the number of regular files walked and the sum of their sizes |
| TreeHashing.ErrorsExactly | telemetry/tree_hashing.py:155-169 | errors are reported for exactly the entries and directories below that failed, with path and cause |
| TreeHashing.SubdirectoriesExactly | telemetry/tree_hashing.py:127-139 | the subdirectories reported are the directories listed, with their own hash and counts |
| TreeHashing.ModesNeverAgree | telemetry/tree_hashing.py:107-113 | if the two modes give a directory the same hash, the two texts hashed for it there differ and collide |
| TreeHashing.PathSizeFileHashIsFaithful | telemetry/tree_hashing.py:185-193 | in path and size mode the text hashed for a file determines its path and its size, and nothing else |
| TreeHashing.TreeHasher.Visit | telemetry/tree_hashing.py:112-170 | the recursive walk with one running digest per directory computes the hash, the counts, the errors in order and the root's subdirectories, with bounded lists; a listing that fails half way keeps the errors and subdirectories met so far |
| MatchScores.SqlOrderIsMemoryOrder | matching_pipeline/image_matching/db_results.py:273-282 | on valid scores the upsert's sentinels order exactly as the in-memory comparison does, with ties replacing |
| MatchScores.BetterIsTotalOrder | matching_pipeline/image_matching/result_rows.py:111-128 | the in-memory comparison is a strict total order on score triples |
| MatchScores.BetterIsLexicographic | matching_pipeline/image_matching/result_rows.py:111-128 | a higher final score wins whatever the rest, then a higher confidence, then a higher similarity or any at all |
| MatchScores.FinalScoreEnds | matching_pipeline/image_matching/result_rows.py:162-200 | no similarity counts like a similarity of one; zero gives zero, minus one the negative confidence |
| MatchScores.FinalScoreIsProportional | matching_pipeline/image_matching/result_rows.py:162-200 | in between the final score grows in proportion to confidence and similarity |
| MatchScores.ScoresAreValid | matching_pipeline/image_matching/result_rows.py:162-200 | coerced confidences and similarities give final scores within [-1, 1], above every sentinel |
| MatchScores.PrepareWrites | matching_pipeline/image_matching/result_rows.py:35-81 | fails exactly when a match has an unknown or unlinked file or a score out of range; otherwise one row per pair of linked artworks, in key order, holding the scores and the auction image of the first of its best matches |
| MatchScores.ScoreTable.UpsertMatchScores | matching_pipeline/image_matching/db_results.py:253-297 | the rows are merged in turn, each against what the earlier ones left; only image columns of written pairs change, and a row's image columns are all of one write |
| MatchScores.UpsertsTouchImageColumnsOnly | matching_pipeline/image_matching/db_results.py:253-297 | over any writes: the keys are the old and the written ones, every row keeps its metadata, a new one has none, an unwritten pair keeps its whole row |
| MatchScores.UpsertsKeepRowsWhole | matching_pipeline/image_matching/db_results.py:253-297 | the image columns of a row are its old ones or all those of one write to it |
| MatchScores.StoredIsMaximum | matching_pipeline/image_matching/db_results.py:253-297 | after any upserts the stored triple is the greatest that reached the pair |
| MatchScores.StoredImageAttainsMaximum | matching_pipeline/image_matching/db_results.py:253-297 | the stored image is that of the last write attaining the stored triple |
| MatchScores.OrderDoesNotMatter | matching_pipeline/image_matching/db_results.py:253-297 | the same written triples, in any order and batching, leave the same stored triple |
| MatchScores.HistoryStoresMaximum | matching_pipeline/image_matching/result_rows.py:35-128 | over any history of runs the stored triple is the maximum over all accepted matches of all runs |
| LinkFinalization.LinkTables.FinalizeProcessedLinks | matching_pipeline/image_matching/db_results.py:349-410 | all parts of the statement are computed from the state before it |
| LinkFinalization.FinalizationCharacterised | matching_pipeline/image_matching/db_results.py:349-410 | afterwards an artwork is flagged exactly if it was or all its links are processed without error; the input's links are done and no other link changed |
| LinkFinalization.OneStatementIsSequential | matching_pipeline/image_matching/db_results.py:349-410 | the one-statement form equals updating the links first and rolling up after |
| LinkFinalization.BatchesCompose | matching_pipeline/image_matching/db_results.py:349-410 | consecutive calls equal one call with the union of their inputs |
| LinkFinalization.CountsAdd | matching_pipeline/image_matching/db_results.py:349-410 | counts of consecutive calls add up to those of the one call |
| LinkFinalization.CountsSayWhatChanged | matching_pipeline/image_matching/db_results.py:349-410 | the counts are the links changed, the artworks newly flagged, and those among them without links |
| LinkFinalization.FinalizationIsIdempotent | matching_pipeline/image_matching/db_results.py:349-410 | running it again changes nothing and counts nothing |
| ContentVersions.HistoryKeepsInvariant | db/init-production/01_schema_production.sql:428-609 | versions, marks, scores and every run's rows stay consistent over all interleavings |
| ContentVersions.AcceptedCommitIsCurrent | matching_pipeline/image_matching/db_results.py:141-208 | a commit that passes the guard is of the current lost corpus and of the current contents of every image it used |
| ContentVersions.RejectionMeansChange | matching_pipeline/image_matching/db_results.py:141-208 | the guard rejects a run's own images exactly when the corpus revision or one of their versions has advanced |
| ContentVersions.MarksAreCurrent | matching_pipeline/image_blocking/db_updates.py:22-53 | an image is marked embedded only for the content that was embedded |
| ContentVersions.StepStales | db/init-production/01_schema_production.sql:513-609 | over one step: a score is stale afterwards exactly if its auction image was replaced while linked neither to its artwork nor to a lost one, or if it was stale and was neither removed nor renewed |
| ContentVersions.StoredScoresAreCurrent | db/init-production/01_schema_production.sql:513-609 | over any history: a stored score is of the lost image's present content; it is stale exactly if its image was replaced while unlinked and nothing since removed or renewed the score; otherwise it is of the auction image's present content too |
| ContentVersions.RevisionReadLastIsUnsound | matching_pipeline/image_blocking/pipeline.py:168-183 | had the revision been read after the rows, a stale score would be committed |
| ContentVersions.RelinkedImageKeepsStaleScore | scrapers/db_interface.py:1036-1200 | one scrape drops the second image of an artwork, its file changes, a later scrape brings it back: a stale score remains |
| ContentVersions.CoerceImageVersions | matching_pipeline/image_blocking/db_updates.py:56-74 | succeeds exactly when all ids and versions are positive and no id has two versions |
| ContentVersions.ImageDatabase.MarkImageFilesEmbedded | matching_pipeline/image_blocking/db_updates.py:22-53 | afterwards an image is marked exactly if it was or is listed with the version it has, and nothing else changes; nothing is written when the list is refused |
| ContentVersions.ImageDatabase.WriteMatchingResults | matching_pipeline/image_matching/db_results.py:141-208 | writes exactly when the guard holds |
| ScraperLeases.HistoryKeepsInvariant | scrapers/orchestrator.py:581-635 | locks, processes and rows stay consistent over all interleavings of acquiring, inserting, recording, reconciling, releasing and crashing |
| ScraperLeases.AtMostOneUnfinishedRow | scrapers/orchestrator.py:581-635 | a scraper never has two running rows |
| ScraperLeases.LiveRunIsNeverInterrupted | scrapers/orchestrator.py:210-261 | no step of another process touches the row of a live run |
| ScraperLeases.CrashedRunsAreFinalizedFirst | scrapers/orchestrator.py:605-635 | when a run's row is inserted every earlier row of the scraper is finished |
| ScraperLeases.InterruptedMeansAbandoned | scrapers/orchestrator.py:239-261 | a row is marked interrupted only if its process left without recording an outcome |
| ScraperLeases.OutcomesAreFinal | scrapers/orchestrator.py:239-261 | a recorded outcome is never changed |
| ScraperLeases.RowsTellTheOutcome | scrapers/orchestrator.py:690-790 | in every reachable state a row says completed exactly if its run's process recorded success, and failed exactly if it recorded failure |
| ScraperLeases.ScraperLease.Release | scrapers/run_lock.py:61-90 | releases once; a second call leaves the lock alone, whoever holds it; a lost lock is reported |
| ScraperLeases.RunTable.RunScraperGuarded | scrapers/orchestrator.py:581-720 | twenty tries for the lock; then the run's row says completed exactly if the work ended well and the lease was held before and after it, failed otherwise, every row left running is marked interrupted and no other row changes; the lease is released, and a lock lost meanwhile is reported and left to its holder |
| TelemetryDaemons.DaemonIsSafe | telemetry/daemon.py:58-274 | over every run: at most one worker, at most five startup attempts, none after a daily attempt, unhealthy only once startup is settled |
| TelemetryDaemons.StartupSettlesWithCause | telemetry/daemon.py:119-175 | startup is settled exactly by an exit of 0 or 78, or when after four failures the startup worker exits otherwise or its launch fails |
| TelemetryDaemons.OneDailyPerDateExactly | telemetry/daemon.py:188-270 | dates under which no run sees two daily attempts on one date are exactly those never left and returned to past the first iteration |
| TelemetryDaemons.OneDailyPerDate | telemetry/daemon.py:188-270 | if dates never go back, daily attempts are on ever later dates |
| TelemetryDaemons.ClockGoingBackRepeatsADaily | telemetry/daemon.py:188-270 | a run with dates 1, 1, 2, 1 and two daily attempts on date 1 |
| TelemetryDaemons.EveryEnabledDateIsTried | telemetry/daemon.py:188-270 | past startup, an enabled iteration that leaves no worker has tried the day's work |
| TelemetryDaemons.UnhealthyReported | telemetry/daemon.py:119-262 | unhealthy after an iteration exactly if startup exits terminally or fails for the fifth time, the day's work fails or cannot start, or it was unhealthy and neither a worker succeeded nor the configuration changed |
| TelemetryDaemons.DegradedReported | telemetry/daemon.py:119-250 | degraded exactly after an earlier startup failure, or if nothing happened since one |
| TelemetryDaemons.ActiveReported | telemetry/daemon.py:58-270 | active exactly after a launch while not unhealthy, or on enabling, or if nothing happened since |
| TelemetryDaemons.HealthyReported | telemetry/daemon.py:90-119 | healthy exactly after a success without a new launch, or if nothing happened since |
| TelemetryDaemons.DisabledReported | telemetry/daemon.py:58-68 | disabled exactly on disabling with nothing else happening, or if nothing happened since |
| TelemetryDaemons.WorkerExactly | telemetry/daemon.py:188-270 | which worker runs after an iteration, from what it met |
| TelemetryDaemons.LastDateExactly | telemetry/daemon.py:188-270 | the last date tried changes exactly when the day's work is tried |
| TelemetryDaemons.FailuresExactly | telemetry/daemon.py:119-250 | startup failures are counted one by one and reset by success |
| TelemetryDaemons.UnhealthyExactly | telemetry/daemon.py:32-274 | over whole runs: unhealthy exactly if something went wrong and no success or reconfiguration followed |
| TelemetryDaemons.UnhealthyStaysOverRuns | telemetry/daemon.py:58-274 | with fixed enablement, unhealthy lasts until a worker exits 0 |
| TelemetryDaemons.TelemetryDaemon.RunDaemon | telemetry/daemon.py:32-274 | the loop computes the state machine from its initial state |
| PreparationQueues.PreparationQueue.Fill | matching_pipeline/image_matching/run_image_matching.py:177-191 | submits the next candidates that need preparation, in order and never twice, until the window is full |
| PreparationQueues.PreparationQueue.Take | matching_pipeline/image_matching/run_image_matching.py:223-230 | a candidate finds its future exactly if it needs preparation; at most the configured number is held |
| PreparationQueues.MatchCandidates | matching_pipeline/image_matching/run_image_matching.py:224-312 | the missing-image error never happens; exactly the candidates not served from the cache are submitted, once each and in order; accepted and failed pairs are counted |
| PreparationQueues.RunImageMatching | matching_pipeline/image_matching/run_image_matching.py:121-318 | the totals over all auctions, for any mix of cached candidates and any worker count |
| PreparationQueues.ProcessedMeansClean | matching_pipeline/image_matching/run_image_matching.py:308-309 | an id is reported as processed exactly if some extracted image with that id had no failed pair |
| PreparationQueues.PairsExactly | matching_pipeline/image_matching/run_image_matching.py:224-312 | every accepted pair is reported once, in order, under its image's id; failed pairs and all matched pairs are counted once each |
| PreparationQueues.FailedImagesExactly | matching_pipeline/image_matching/run_image_matching.py:194-222 | the failed images counted are those that did not extract |
| PreparationQueues.ProcessedInOrder | matching_pipeline/image_matching/run_image_matching.py:308-309 | the processed images are reported once each, in order |
| EmbeddingCaches.ValidCachedIsSound | matching_pipeline/image_blocking/embedding_cache.py:283-325 | every reused vector is what regenerating from the present identity gives |
| EmbeddingCaches.ReusedRowByRow | matching_pipeline/image_blocking/embedding_cache.py:283-325 | an intact file of this model gives back a row's vector exactly if that row's identity is the stored one, whatever became of other rows |
| EmbeddingCaches.IdentitiesExactly | matching_pipeline/image_blocking/embedding_cache.py:217-276 | fingerprinting gives a map exactly if ids are distinct, every file is readable at its time and as its database digest says, and the map names the bytes read and nothing else |
| EmbeddingCaches.GeneratedFromReads | matching_pipeline/image_blocking/embedding_cache.py:172-207 | each generated vector is of the bytes its row's own read saw, and no other id is generated |
| EmbeddingCaches.AgreementExactly | matching_pipeline/image_blocking/embedding_cache.py:40-119 | a successful run over a sound cache agrees with regenerating everything, and leaves a sound file, exactly if for every generated row the bytes embedded give the vector of the bytes fingerprinted; steady files suffice, and are necessary for a model that tells contents apart |
| EmbeddingCaches.EmbeddingCache.Ensure | matching_pipeline/image_blocking/embedding_cache.py:40-119 | the code computes the specified result and file; the identities name the bytes read at both ends of the run; exactly the rows marked not embedded or without a fitting vector are generated; the file gives back the returned vectors; a failing run leaves it alone |
| EmbeddingCaches.RunsAgreeExactly | matching_pipeline/image_blocking/embedding_cache.py:40-119 | over any sequence of runs with any models, files and rows, every successful one agrees with regeneration exactly if none was disturbed; then the file stays sound |
| EmbeddingCaches.EnsureOverRuns | matching_pipeline/image_blocking/embedding_cache.py:40-119 | the code over any sequence of runs: per run the promises of one run, between the files before and after it, and agreement as above |
| EmbeddingCaches.SecondRunReuses | matching_pipeline/image_blocking/embedding_cache.py:53-110 | with unchanged identities and no row marked, a second run generates nothing, returns the same vectors and leaves the file |
| EmbeddingCaches.ChangeAndRevertIsInvisible | matching_pipeline/image_blocking/embedding_cache.py:84-85 | a run that succeeds and returns a vector other than that of its identity's bytes, the file having changed and reverted |

## Left out

- SyncGraph.FetchTable: SQL text, drivers and cursors are not modelled, only "reserve the size, then return the rows with these ids in order".
- SyncChannel.Channel.PostWithRetries: HTTP headers, authentication, timeouts, the delay before a retry (Retry-After, section 10.2.3 of RFC 9110) and pacing between pages are not modelled.
- SyncDelivery.Deliver: the trigger, generation time and schema version of an envelope are constants of an operation and left out; the stale-workspace cleanup and the retries of a whole operation are not modelled.
- SyncHttp.NoDataBeforeInventoryAcknowledged: page order inside one data page's `match_score` dictionary is not modelled (it is a map).
- TreeHashing.TreeHasher.Visit: the external sort that yields names in byte order, the retained file digests and the file-changed-while-hashing check are left out; an entry that raises is given by its error.
- MatchScores.StoredIsMaximum: NaN and rounding are not modelled; parsing ids and scores from text is left out, their range checks are in.
- ContentVersions.AcceptedCommitIsCurrent: the window between replacing a file and recording its digest is one step; CSV-backed blocking, image deletion and clean-up are left out.
- EmbeddingCaches.EmbeddingCache.Ensure: float16 and float32 rounding, unreadable cache files and zero vectors are left out; a file is read at one moment, so the check that it did not change while being fingerprinted is left out.
- ScraperLeases.HistoryKeepsInvariant: a lock lost while its owner is alive is excluded (`RunScraperGuarded` has it); progress counters of a run row are left out.
- TelemetryDaemons.TelemetryDaemon.RunDaemon: waiting times, signals and process groups are left out.
- PreparationQueues.RunImageMatching: the inconsistent-artifact errors and the out-of-memory abort, which end the whole run, are left out.
- Candidate generation, the classifier, feature extraction and numpy top-k are foreign code; metadata matching, the frontend, dashboards, statistics and per-site scrapers are not part of this model.
