# Verified model of the download store and its synchronization

AriaDeck drives an external download engine (aria2). It keeps an incremental cache of the engine's tasks, shows
filtered and sorted views of that cache, keeps the cache in step with the engine across reconnects, restarts a
crashed local engine, and sends batches of commands. This project models those parts in Dafny and proves what
they promise over every input, every run and every reachable state.

Check it with `dafny verify dfyconfig.toml`.

## How the model is organised

| file | models |
|---|---|
| `prelude.dfy`, `seqs.dfy`, `text.dfy` | saturating integers, options and results; duplicate-free sequences; the string operations used |
| `task.dfy` | task values: applying an engine snapshot, merging sparse metadata, custom names, list filters |
| `pages.dfy` | the ordered map of stopped pages and the walk that finds the next offset to request |
| `store_spec.dfy`, `store_props.dfy`, `store_diff.dfy` | the store as a value: each operation as one function; the invariant over every run; patches as exact differences |
| `store.dfy` | the store as a class whose methods update its fields step by step, each proved equal to its function |
| `store_calls.dfy` | which calls the store accepts, the error of every refusal, and what an accepted call leaves, record by record and task by task |
| `store_client.dfy`, `store_limits.dfy` | a client that follows patches; what the store does not promise, with exact conditions |
| `view.dfy` | filtering, searching, sorting and counting |
| `page_walks.dfy`, `paging.dfy` | walks over the pages and insertions; loading more stopped pages |
| `skipping.dfy`, `paging_limits.dfy` | when load-more skips results, exactly; runs that show it |
| `refresh.dfy`, `refreshed_pages.dfy`, `refresh_results.dfy` | the full refresh; what it does to the stopped list; when it succeeds and what it leaves |
| `backoff.dfy`, `coordinator.dfy`, `coordinator_props.dfy`, `coordinator_turns.dfy` | reconnect delays; the coordinator as a step machine; what every run keeps; what each turn leads to and leaves |
| `supervisor.dfy` | the crash supervisor with its sliding restart window |
| `selection.dfy`, `trackers.dfy`, `waiting.dfy` | file-selection ranges, tracker lists, waiting-queue completion |
| `batch.dfy`, `batch_results.dfy` | batch commands; what they answer for each task and ask of the engine |

The store class has the fields of the original struct. Its abstract value is `State()`, and each method ensures
`Follows(old(State()), <specification of the call>, r)`: the new state and the returned patch are those of the
specification function, and a rejected call leaves every field alone. The lemmas then say what the
specification functions mean, without naming their bodies: the representation invariant, exact differences,
idempotence, what a refresh loses.

A coordinator turn is one completed wait of the original: a control message, a network result, a timer, a closed
channel. Engine and history answers, clock readings and fresh session ids are inputs of the turn. A log of
observable events (attempts, failed attempts, backoff resets, served snapshots, engine calls) carries the claims
about whole runs.

## Findings

Properties one might expect that the code does not have. Each comes with an input that shows it fails and with the
exact condition, readable before the call, under which it holds.

- **Load-more can skip results.** The next request starts at the sum of the page lengths up to the first gap. While
  every page holds what the engine lists at its offset, that skips nothing exactly when the walked pages tile the
  prefix (`RequestSkipsNothingIff`). A live list, a removal or a targeted answer without a task can take gids out of
  a page, and then the pages behind it no longer agree with the engine's shorter list. From a loaded prefix, enough
  requests load the whole remaining list exactly when no page lost a gid while a page behind it kept one
  (`LoadMoreLosesNothingIff`; the same condition decides whether the next request continues the loaded results,
  `RequestContinuesIff`). Losing at the end is harmless for every list (`LosingAtTheEndLosesNothing`); losing in front
  is fatal for every list of at least twice the loaded results plus one page, while the end of a shorter list may
  happen to be reached (`ShortListRecovers`). Two runs show the loss: one page becomes shorter and the request into
  the gap overlaps the next page (`ShortenedPageSkipsResults`); one page is emptied, no pages ever overlap, each
  request starts at the least uncovered offset, and three results are skipped all the same
  (`EmptiedPageSkipsResults`). Refreshing the loaded pages leaves such pages alone when they start between the
  multiples of the page size (`OffGridPageStays`).
- **The next offset is not always the least uncovered one.** It is exactly when the walked pages tile
  (`NextOffsetIsLeastUncovered`); pages that do not overlap tile (`NonOverlappingTiles`), and an operation keeps them
  apart exactly when it is not a page or the page fits between its neighbours (`ApartExactly`). A store can hold
  overlapping pages (`OverlapCounterexample`, `OverlapIsReachable`).
- **The next offset is not the number of distinct loaded gids**, as its documentation says of pages without a gap,
  unless no gid was loaded twice (`NextOffsetCountsGids`; `OverlappedPages` is the counterexample, 8 against 5).
- **A page size of zero stalls load-more.** The request passes the configured page size on unchanged, while the
  refresh loops raise it to at least one. Enough requests finish a non-empty list exactly when the size is at least
  one (`LoadMoreFinishesIff`); with zero nothing is ever loaded (`ZeroPageSizeStalls`).
- **Reseeding from history is not a no-op**: every row met again is reported as rewritten. A second seeding is quiet
  exactly when no record becomes a history row (`ReseedQuietIffNoRows`, `ReseedIsLoud`).
- **Task revisions can fall**, exactly when a seeding rewrites a task that was past its first revision
  (`RevisionsRiseIff`, `RevisionFalls`).
- **A change of the history rows can go unmarked** in the patch, in exactly two kinds of calls: a targeted snapshot of
  a history row, and a live list that names a history row but no gid of the stopped order. Every other operation,
  stopped pages included, marks it (`HistoryMarkedIff`, `TakeoverIsUnmarked`).
- **Not every stored task is listed.** Starting from a store where all are, exactly the calls of `KeepsListed` keep it
  so (`ListedExactly`, `TargetIsUnlisted`); `UnlistedExactly` gives the unlisted tasks after any operation on any
  valid store.
- **A category can change across a restart.** The history trims identifiers and the store does not, so the change in
  memory and the reloaded one agree exactly when there is no white space around the identifier
  (`ReloadAgreesIffTrimmed`, `PaddedCategoryChanges`). This presumes that the history accepts the write: a failed
  write is only logged, the memory changes all the same, and the change is then gone after a reload.

Two branches of the original are unreachable in a valid store and are proved so: the gid mismatch inside `upsert`,
and the missing-task branch of the history seeding for gids the engine lists.

## Model

| member | source | states |
|---|---|---|
| Tasks.ApplySnapshot | crates/ariadeck-domain/src/task.rs:317-403 | a gid mismatch changes nothing; otherwise the reported set is exactly the fields in which the task before and after differ |
| Tasks.SetCustomOutputName | crates/ariadeck-domain/src/task.rs:405-423 | the task becomes the renamed one and the reported fields are exactly those that differ |
| Tasks.UpdateField | crates/ariadeck-domain/src/task.rs:455-465 | the value becomes the incoming one; the field is marked iff the two were different |
| Tasks.UnchangedIffNoField | crates/ariadeck-domain/src/task.rs:399-402 | no field is reported iff the whole task, revision included, is unchanged |
| Tasks.RefreshedIdempotent | crates/ariadeck-domain/src/task.rs:317-403 | applying one snapshot twice is applying it once, so the second application reports nothing |
| Tasks.MergeIdempotent | crates/ariadeck-domain/src/task.rs:431-453 | merging the same metadata again changes nothing |
| Tasks.MergeAssociative | crates/ariadeck-domain/src/task.rs:431-453 | merging is associative, so only the sequence of reports matters |
| Tasks.MetadataIsLastKnown | crates/ariadeck-domain/src/task.rs:431-453 | after any history of refreshes each metadata field holds the last value that was known, or the initial one |
| Tasks.CustomNameSurvives | crates/ariadeck-domain/src/task.rs:317-423 | a user's name survives any history of refreshes while status, sizes, speeds and error are those of the last one |
| Tasks.FiltersOf | crates/ariadeck-domain/src/task.rs:487-500 | for each status, exactly the list filters that show it |
| Pages.InsertIsMapUpdate | crates/ariadeck-application/src/store.rs:487-490 | storing a page keeps offset order and replaces exactly the page at that offset |
| Pages.FlattenPurge | crates/ariadeck-application/src/store.rs:431-434 | dropping gids from every page is dropping them from the flattened list |
| Pages.NextOffsetIsLeastUncovered | crates/ariadeck-application/src/store.rs:208-217 | the next offset is the least one no page covers iff the walked pages tile |
| Pages.NonOverlappingTiles | crates/ariadeck-application/src/store.rs:208-217 | pages that do not overlap tile up to the first gap |
| Pages.OverlapCounterexample | crates/ariadeck-application/src/store.rs:208-217 | two overlapping pages for which the walk reports an offset past one that was never loaded |
| PagingLimits.OverlapIsReachable | crates/ariadeck-application/src/store.rs:462-510 | two page applications bring a new store to those overlapping pages, and the next request passes over an offset that was never loaded |
| PagingLimits.ShortenedPageSkipsResults | crates/ariadeck-application/src/sync.rs:1245-1289 | a live list takes the last gid of the first of two pages; two more requests end with nothing left to load although three results of the engine list were never loaded |
| PagingLimits.EmptiedPageSkipsResults | crates/ariadeck-application/src/sync.rs:1245-1289 | a live list takes the whole first page; the pages never overlap, each request starts at the least uncovered offset, and three results are skipped all the same |
| PagingLimits.ShortListRecovers | crates/ariadeck-application/src/sync.rs:1245-1289 | when little remains of the list, one request loads all of it although a page was emptied before another |
| Skipping.RequestSkipsNothingIff | crates/ariadeck-application/src/store.rs:208-217 | while every page holds what the engine lists at its offset, everything in front of the next request is loaded iff the walked pages tile |
| Skipping.RequestContinuesIff | crates/ariadeck-application/src/store.rs:431-434 | after gids were taken out of a loaded prefix, what is left is a prefix of the engine's remaining list, and the next request continues it iff no page lost a gid while a page behind it kept one |
| Skipping.LosingAtTheEndLosesNothing | crates/ariadeck-application/src/sync.rs:1245-1289 | if gids were lost only at the end of the pages, enough requests leave exactly the engine's remaining list, in order |
| Skipping.LosingInFrontLosesResults | crates/ariadeck-application/src/sync.rs:1245-1289 | otherwise no number of requests ever loads a remaining list of at least twice the loaded results plus a page |
| Skipping.LoadMoreLosesNothingIff | crates/ariadeck-application/src/sync.rs:1245-1289 | over whole runs: enough requests load every remaining result iff no page lost a gid while a page behind it kept one |
| PagingLimits.OverlappedPages | crates/ariadeck-application/src/store.rs:202-205 | overlapping gapless pages whose next offset is 8 while they hold 5 distinct gids |
| Pages.NextOffsetCountsGids | crates/ariadeck-application/src/store.rs:202-217 | without a gap the next offset is the number of distinct loaded gids iff no gid was loaded twice |
| StoreLimits.ApartExactly | crates/ariadeck-application/src/store.rs:431-510 | from pages that do not overlap, an operation leaves pages that do not overlap iff it is not a page or the page fits between its neighbours |
| Seqs.DedupOrder | crates/ariadeck-application/src/store.rs:696-705 | the de-duplicated list orders gids by their first occurrence |
| Seqs.DedupDistinct | crates/ariadeck-application/src/store.rs:696-705 | the de-duplicated list has no duplicates |
| Store.ValidateUnique | crates/ariadeck-application/src/store.rs:751-763 | accepts exactly the lists with distinct gids; otherwise returns the first gid seen twice, which does occur twice |
| Store.DownloadStore.constructor | crates/ariadeck-application/src/store.rs:124-144 | a new store is empty, not stale, at revision 0, and valid |
| Store.DownloadStore.FinishPatch | crates/ariadeck-application/src/store.rs:715-721 | the store revision moves iff the patch reports something, and the patch carries it |
| Store.DownloadStore.Upsert | crates/ariadeck-application/src/store.rs:650-684 | inserts or refreshes one task, keeps the search index equal to the current names, takes the gid over from history, and fails without a change on a foreign gid |
| Store.DownloadStore.UpsertEach | crates/ariadeck-application/src/store.rs:422-424 | over well-keyed tasks the upsert loop cannot fail and its patch lists the new gids and the changed tasks |
| Store.FirstOccurrences | crates/ariadeck-application/src/store.rs:696-705 | the loop with its seen-set yields the first occurrences of the gids that have a task |
| Store.DownloadStore.RebuildStoppedOrder | crates/ariadeck-application/src/store.rs:696-713 | the stopped order becomes the first occurrences of the pages, and paged gids leave the history rows |
| Store.RebuiltPlain | crates/ariadeck-application/src/store.rs:696-713 | while every paged gid has a task and none is a history row, the filters of the rebuild drop nothing |
| Store.DownloadStore.ReconcileLive | crates/ariadeck-application/src/store.rs:403-459 | the in-place reconciliation does exactly what its specification says, keeps the invariant, and changes nothing when rejected |
| Store.StagesReconcile | crates/ariadeck-application/src/store.rs:420-458 | upserting, purging, rebuilding and settling in the source's order add up to one simultaneous update |
| Store.DownloadStore.ApplyStoppedPage | crates/ariadeck-application/src/store.rs:462-510 | the in-place page application follows its specification, keeps the invariant, and changes nothing when rejected; when it is accepted is `StoreCalls.AcceptedIff`, what it leaves `StoreDiff.PageIsStored` |
| Store.StagesPage | crates/ariadeck-application/src/store.rs:480-509 | the steps of a page application add up to one simultaneous update |
| StoreCalls.AcceptedIff | crates/ariadeck-application/src/store.rs:282-763 | over every operation: a call is accepted iff it carries the store's generation and its arguments are in order; for a page that is distinct gids and an offset not past the total, whatever its length; for live lists that no gid occurs twice in both |
| StoreCalls.RefusedWith | crates/ariadeck-application/src/store.rs:282-763 | over every operation: the error of each refusal, with the first repeated gid, the offset and total, or the two gids it names; a wrong generation comes before everything else |
| StoreCalls.PageShows | crates/ariadeck-application/src/store.rs:473-509 | every task of an accepted page within the total shows what was fetched, is in the stopped list and in no live one |
| StoreCalls.LiveOrdersAfterPage | crates/ariadeck-application/src/store.rs:480-509 | both live lists keep their order without the page's gids, and the inserted gids are the unknown ones in page order |
| StoreCalls.HistoryOrderAfter | crates/ariadeck-application/src/store.rs:346-684 | every operation but seeding leaves the history rows in order and takes out exactly the gids it names |
| StoreCalls.OthersStay | crates/ariadeck-application/src/store.rs:282-722 | over every operation: a task it does not name stays exactly as it is |
| StoreCalls.MarksInTurn | crates/ariadeck-application/src/store.rs:88-96 | the order in which live lists, pages and removals mark the lists they change |
| StoreCalls.NewStoreIsEmpty | crates/ariadeck-application/src/store.rs:124-144 | a new store is valid, empty, fresh, without statistics, and may ask for its first page |
| Store.DownloadStore.BeginSession | crates/ariadeck-application/src/store.rs:381-400 | a session of the same profile is taken over and the store becomes stale; another profile is refused without a change |
| Store.DownloadStore.UpdateGlobalStat | crates/ariadeck-application/src/store.rs:512-524 | follows its specification, keeps the invariant, and refuses other generations without a change |
| Store.DownloadStore.ApplyTaskSnapshot | crates/ariadeck-application/src/store.rs:528-551 | a targeted refresh updates or removes one task, never its queue position, and refuses an answer for another gid |
| Store.DownloadStore.SetCustomOutputName | crates/ariadeck-application/src/store.rs:553-578 | renames a known task with its search entry, and refuses unknown gids without a change |
| Store.DownloadStore.SetStale | crates/ariadeck-application/src/store.rs:580-592 | follows its specification, keeps the invariant, and refuses other generations without a change |
| Store.DownloadStore.RemoveTasks | crates/ariadeck-application/src/store.rs:594-638 | the in-place removal follows its specification and keeps the invariant |
| Store.StagesRemove | crates/ariadeck-application/src/store.rs:600-637 | the steps of a removal add up to one simultaneous update |
| Store.DownloadStore.RemoveHistoryOnly | crates/ariadeck-application/src/store.rs:346-366 | only history rows are removed, their tasks with them, and the invariant is kept |
| Store.DownloadStore.SeedLocalHistory | crates/ariadeck-application/src/store.rs:282-343 | the seeding loop follows its specification and keeps the invariant; what a row then shows, field by field, is `StoreCalls.SeededShowsRecord` |
| Store.SeedTurn | crates/ariadeck-application/src/store.rs:299-336 | one more accepted record extends state and patch of the seeding exactly as the specification does |
| StoreCalls.SeededShowsRecord | crates/ariadeck-application/src/store.rs:724-749 | the last record of its gid that has this profile, is complete or failed, and is in no engine list shows field by field: its status, name, total and completed length, error, directory, address, info hash and source kind, with nothing in transfer and revision 1 |
| StoreCalls.SeededRowsAreAdmitted | crates/ariadeck-application/src/store.rs:299-341 | the history rows are exactly the gids of such records, told from the records, and no other task changes |
| StoreCalls.SeededOrder | crates/ariadeck-application/src/store.rs:299-341 | the rows come in the order in which the records first name them |
| Store.DownloadStore.NextStoppedOffset | crates/ariadeck-application/src/store.rs:208-217 | the walk over the pages returns the specified offset |
| Store.DownloadStore.CanLoadMoreStopped | crates/ariadeck-application/src/store.rs:221-228 | more may be loaded iff the next offset is below the known total, or nothing was loaded yet |
| Store.DownloadStore.SetCategoryAffiliations | crates/ariadeck-application/src/store.rs:249-259 | replaces all affiliations, dropping empty categories, the last one per gid winning |
| StoreSpec.AffiliationsLastWins | crates/ariadeck-application/src/store.rs:249-259 | a gid is affiliated iff some non-empty category was given for it, and the last such one counts |
| StoreLimits.ReloadAgreesIffTrimmed | crates/ariadeck-application/src/store.rs:261-270 | changing one affiliation in memory and reloading the rows the history keeps of it give the same store iff the identifier has no white space around it |
| StoreLimits.PaddedCategoryChanges | crates/ariadeck-history/src/lib.rs:111-141 | a padded identifier is kept as it is in memory and comes back trimmed |
| View.CategoryViewFollows | crates/ariadeck-application/src/view.rs:117-125 | after a change of one affiliation the task matches its new category only, and no other task's match moves |
| StoreProps.ReconciledValid | crates/ariadeck-application/src/store.rs:403-459 | a reconciliation keeps the representation invariant |
| StoreProps.PageAppliedValid | crates/ariadeck-application/src/store.rs:462-510 | a stopped page keeps the representation invariant |
| StoreProps.RemovedValid | crates/ariadeck-application/src/store.rs:594-638 | a removal keeps the representation invariant |
| StoreProps.SeededValid | crates/ariadeck-application/src/store.rs:282-343 | a history seeding keeps the representation invariant |
| StoreProps.PerformValid | crates/ariadeck-application/src/store.rs:282-722 | every operation keeps the invariant: orders distinct and pairwise disjoint, every listed gid has a task of that gid, history rows are exactly the history order, the stopped order is the de-duplicated flattened pages, the search index is the lower-cased names |
| StoreProps.ReachableValid | crates/ariadeck-application/src/store.rs:122-722 | the invariant holds after any run of operations on a new store, rejected ones included |
| StoreSpec.UpsertAllPointwise | crates/ariadeck-application/src/store.rs:422-424 | with distinct gids every snapshot meets the task that was in the store before the call, and no other task moves |
| StoreSpec.UpdatesExact | crates/ariadeck-application/src/store.rs:650-675 | the field patches name exactly the moved tasks, each once, with exactly their changed fields and new revision |
| StoreDiff.ReconcileIsExactDiff | crates/ariadeck-application/src/store.rs:403-459 | the patch is the exact difference of the two stores; inserted gids come in list order, removed ones are the vanished live ones, both live orders are the given lists, and the stopped order loses exactly the live gids |
| StoreDiff.ReconcileEmptyIffStill | crates/ariadeck-application/src/store.rs:403-459 | the patch is empty iff the call left the store unchanged |
| StoreDiff.ReconcileTwice | crates/ariadeck-application/src/store.rs:403-459 | repeating a reconciliation reports nothing and leaves the store, every revision included, as it was |
| StoreDiff.ReconcileTakesSnapshots | crates/ariadeck-application/src/store.rs:422-424 | every reported task is stored with the snapshot's values in motion, its name unless the user chose one, and its known metadata, over the task that was there before the call |
| StoreDiff.PerformTellsTasks | crates/ariadeck-application/src/store.rs:346-722 | for every operation but seeding, inserted, updated and removed are exactly the differences of the two task maps |
| StoreDiff.PerformTellsRest | crates/ariadeck-application/src/store.rs:282-722 | for every operation, which orders a patch marks, its three flags, and that the revision moves iff the patch is not empty |
| StoreClient.FollowStep | crates/ariadeck-application/src/store.rs:49-60 | rereading exactly what one patch mentions brings an up-to-date copy of tasks, engine orders, flags and revision up to date |
| StoreClient.FollowingStaysInStep | crates/ariadeck-application/src/store.rs:49-60 | over every run from a valid store, a client that only follows patches holds exactly the store's tasks, engine orders, flags and revision |
| StoreClient.PatchesAddUp | crates/ariadeck-application/src/store.rs:49-60 | over every run, the inserted and removed gids of all patches add up to the gids of the stored tasks |
| StoreLimits.HistoryMarkedIff | crates/ariadeck-application/src/store.rs:282-684 | for every operation, a change of the history rows is marked iff the call is not one of the two kinds that take rows over silently |
| StoreLimits.TakeoverIsUnmarked | crates/ariadeck-application/src/store.rs:679-682 | one seeded row, taken over unmarked by a targeted snapshot and by a live list |
| StoreLimits.PageMarks | crates/ariadeck-application/src/store.rs:486-507 | a stopped page that takes over a history row always marks the stopped list |
| StoreLimits.UnlistedExactly | crates/ariadeck-application/src/store.rs:282-684 | for every operation, which stored tasks no list names afterwards |
| StoreLimits.ListedExactly | crates/ariadeck-application/src/store.rs:282-684 | while every stored task is listed, which calls keep it so, both directions |
| StoreLimits.TargetIsUnlisted | crates/ariadeck-application/src/store.rs:528-551 | a targeted snapshot of an unknown task leaves it outside every list |
| StoreLimits.RevisionsRiseIff | crates/ariadeck-application/src/store.rs:322-335 | no task revision falls iff the call is not a seeding that rewrites a task past its first revision |
| StoreLimits.RevisionFalls | crates/ariadeck-application/src/store.rs:322-335 | a task seen, renamed and then seeded goes from revision 2 back to 1 |
| StoreDiff.QuietPatch | crates/ariadeck-application/src/store.rs:78-86 | an exact difference between stores of equal contents is empty |
| StoreDiff.PageIsStored | crates/ariadeck-application/src/store.rs:473-503 | an accepted page is cut at the reported total, replaces the page at its offset, and drops exactly the pages past the total |
| StoreDiff.PageMovesTasks | crates/ariadeck-application/src/store.rs:480-509 | paged gids leave the live and history lists, and a page deletes no task |
| StoreDiff.PageTakesSnapshots | crates/ariadeck-application/src/store.rs:480-486 | the same for every entry of a page that lies below the reported total |
| StoreDiff.TargetTakesSnapshot | crates/ariadeck-application/src/store.rs:528-551 | a targeted refresh takes its snapshot over, leaves every other task alone, and ends the gid's time as a history row |
| StoreDiff.UpsertedReflects | crates/ariadeck-application/src/store.rs:650-678 | what a stored task shows after an upsert, and that its revision moves iff the task does (short of saturation) |
| StoreDiff.RenameShows | crates/ariadeck-application/src/store.rs:553-578 | the name, its state and the search entry follow the rename; no other field and no other task moves |
| StoreDiff.ForgetDropsHistoryRows | crates/ariadeck-application/src/store.rs:346-366 | exactly the named history rows lose their tasks, and every gid the engine lists keeps its own |
| StoreDiff.PerformTouchesOnly | crates/ariadeck-application/src/store.rs:282-638 | for every operation, the session, staleness, statistics and total it decides, and the lists, pages, tasks and categories it leaves alone |
| StoreDiff.RemoveLeavesNoTrace | crates/ariadeck-application/src/store.rs:594-638 | removed gids vanish from the tasks and all four orders, and the rest keeps its order |
| StoreDiff.OldGenerationRejected | crates/ariadeck-application/src/store.rs:640-648 | after a new session every operation that carries the old generation is refused, while all tasks and lists are still there |
| StoreDiff.SeedReports | crates/ariadeck-application/src/store.rs:320-336 | seeding inserts exactly the new gids and removes nothing, and reports as rewritten exactly the rows it met again |
| StoreDiff.SeedTouchesRowsOnly | crates/ariadeck-application/src/store.rs:299-336 | after seeding each row shows the task of its last accepted record (`StoreCalls.SeededShowsRecord` says which), other tasks are untouched, and tasks the engine lists are never rows |
| StoreDiff.ReseedQuietIffNoRows | crates/ariadeck-application/src/store.rs:320-342 | seeding the same records again is quiet iff none of them is a history row |
| StoreLimits.ReseedIsLoud | crates/ariadeck-application/src/store.rs:325-335 | one completed record seeded twice into a new store is reported again |
| View.CompareIsStrictTotalOrder | crates/ariadeck-application/src/view.rs:62-71 | for every store, key and direction the comparator with its gid tie-break is a strict total order |
| View.CrossTransitive | crates/ariadeck-application/src/view.rs:149-159 | cross-multiplied comparison is transitive over positive totals |
| View.ProgressIsRatio | crates/ariadeck-application/src/view.rs:149-159 | the cross-multiplied comparison is the comparison of the two ratios as real numbers |
| View.StatusesInOrder | crates/ariadeck-application/src/view.rs:161-173 | the order in which an ascending status view shows the nine statuses |
| View.TextIsDictionaryOrder | crates/ariadeck-application/src/view.rs:139-141 | the name comparison is dictionary order by code point |
| View.AscendingViewIsSorted | crates/ariadeck-application/src/view.rs:62-71 | in an ascending view no later task has the smaller key (name, status rank, completion ratio with unknown totals first, speed, size), and ties are in gid order |
| View.SortIsUnique | crates/ariadeck-application/src/view.rs:62-71 | a set of gids has one order under the comparator, so the sorting algorithm is invisible |
| View.ViewIsSortedAndComplete | crates/ariadeck-application/src/view.rs:37-81 | for every query the view holds exactly the matching listed gids, each once, and a sorted one is strictly in order, in both directions |
| View.ViewIsTheSortedPermutation | crates/ariadeck-application/src/view.rs:62-71 | no other list is strictly in order and complete |
| View.QueueViewKeepsOrder | crates/ariadeck-application/src/view.rs:40-60 | an ascending queue view keeps the order in which the lists first name the gids |
| View.QueueViewFollowsLists | crates/ariadeck-application/src/view.rs:39-47 | a queue view shows the active list first, then the waiting, the stopped and the history one, each in its own order |
| View.DescendingIsReversed | crates/ariadeck-application/src/view.rs:62-74 | for every key the descending view is the reversed ascending view |
| View.ChainDistinct | crates/ariadeck-application/src/view.rs:39-47 | in a valid store the chained orders list every listed gid exactly once, so the seen-filter drops nothing |
| View.IndexedSearchIsNameScan | crates/ariadeck-application/src/view.rs:48-59 | searching the index is searching the lower-cased current names |
| View.ViewStore | crates/ariadeck-application/src/view.rs:37-81 | the view carries the store revision, the query and the specified gids |
| View.CountTasks | crates/ariadeck-application/src/view.rs:84-114 | one scan gives, for every filter, the length of the view with that filter and no search or category |
| Paging.LoadMoreStep | crates/ariadeck-application/src/sync.rs:1245-1289 | one request against an unchanging engine list loads exactly its next page |
| Paging.AppliedRequest | crates/ariadeck-application/src/sync.rs:1245-1289 | over any pages, a request that finds something to load stores the engine's page at the next offset, under the engine's total |
| Paging.MoreWhileMissing | crates/ariadeck-application/src/store.rs:221-228 | more may be loaded iff a stopped result is missing |
| Paging.LoadMoreConverges | crates/ariadeck-application/src/sync.rs:1245-1289 | from a store that holds the engine's first n results, k requests leave exactly the first n + k pages' worth, in order; the next offset is their number, and more can be loaded iff some are missing |
| Paging.ZeroPageSizeStalls | crates/ariadeck-application/src/sync.rs:1251-1257 | with a page size of zero nothing is ever added to a loaded prefix although more is always promised |
| Paging.LoadMoreFinishesIff | crates/ariadeck-application/src/sync.rs:1245-1289 | enough requests finish an unfinished list iff the page size is at least one |
| Paging.SeedIntoFacts | crates/ariadeck-application/src/sync.rs:1855-1879 | seeding after an engine update keeps the invariant, the session, the staleness and every engine order |
| Refresh.RefreshLoadedStoppedPages | crates/ariadeck-application/src/sync.rs:1756-1784 | the page loop ends, on success or on the first failure, with the specified store, removed and paged gids |
| Refresh.RefreshStore | crates/ariadeck-application/src/sync.rs:1719-1754 | the refresh of the store in place is the specified run, whichever engine call or store step fails; what that run leaves is stated by the rows of `RefreshResults` |
| Refresh.PagesKeepFrom | crates/ariadeck-application/src/sync.rs:1768-1782 | through all its pages a refresh only takes gids out of the live lists and reports none removed |
| Refresh.FullRefreshLosesNothing | crates/ariadeck-application/src/sync.rs:1719-1754 | afterwards the live orders are the fetched lists, and the gids reported removed are exactly the formerly live ones found in no accepted page and no fetched list |
| RefreshResults.RefreshStoresStatistics | crates/ariadeck-application/src/sync.rs:1728-1735 | once both queries were answered the fetched statistics are in the store, also when a page or the live lists then fail |
| RefreshResults.RefreshStopsEarly | crates/ariadeck-application/src/sync.rs:1728-1735 | a failing query, of the statistics before that of the live lists, or another generation leaves the store untouched, with its error |
| RefreshResults.RefreshSucceedsIff | crates/ariadeck-application/src/sync.rs:1719-1754 | a refresh succeeds iff both queries do, every page it asks for is one the store takes, and the live lists repeat no gid |
| RefreshResults.LoadedSucceedsIff | crates/ariadeck-application/src/sync.rs:1756-1784 | the pages asked for are the first one and every multiple of the page size below both what was loaded and what there is |
| RefreshResults.PagesReadAsked | crates/ariadeck-application/src/sync.rs:1768-1782 | no other page answer matters |
| RefreshResults.LoadedErrorExplained | crates/ariadeck-application/src/sync.rs:1756-1784 | the error is that of a page that failed or that the store refuses; a bad first page leaves the store alone |
| RefreshResults.RefreshShowsLive | crates/ariadeck-application/src/sync.rs:1740-1752 | after a refresh every task of the fetched live lists shows what was fetched |
| RefreshResults.RefreshShowsHistory | crates/ariadeck-application/src/sync.rs:1855-1879 | after a refresh every finished or failed record of the profile that is in none of the refreshed lists shows as a history row, field by field |
| RefreshResults.RefreshKeepsStopped | crates/ariadeck-application/src/sync.rs:1719-1784 | a loaded prefix is, after a full refresh, the engine's list up to the end of its last page, without what is live |
| RefreshedPages.RefreshKeepsPrefix | crates/ariadeck-application/src/sync.rs:1756-1784 | refreshing a prefix loaded in pages of the configured size keeps all of it in the engine's order, and fills its last page up |
| RefreshedPages.LoadMoreStaysOnGrid | crates/ariadeck-application/src/sync.rs:1245-1289 | what load-more leaves behind whole pages is again such a prefix |
| RefreshedPages.OffGridPageStays | crates/ariadeck-application/src/sync.rs:1756-1784 | a page below the total that starts between the multiples of the page size is there after a refresh iff it was there before, unchanged |
| Refresh.SeedHistory | crates/ariadeck-application/src/sync.rs:1855-1879 | each failing history query is skipped, the other still takes effect |
| RefreshResults.SeedRowsAndRest | crates/ariadeck-application/src/sync.rs:1855-1879 | after a seed the history rows are exactly the admitted records' gids and other tasks stay; without a reading nothing of this changes |
| RefreshResults.SeedCategories | crates/ariadeck-application/src/sync.rs:1868-1879 | the categories afterwards are the ones read, the last nonempty one of each gid, or the former ones |
| Backoff.ReconnectBackoff.NextDelay | crates/ariadeck-application/src/sync.rs:2220-2246 | a whole number of milliseconds within the jitter span of the base, or the maximum where it cuts such a number short; one more attempt counted |
| Backoff.ReconnectBackoff.Jittered | crates/ariadeck-application/src/sync.rs:2237-2245 | whatever the random word, the delay stays within the span or at the cap, and the modulus is never zero |
| Backoff.EveryDelayDrawn | crates/ariadeck-application/src/sync.rs:2237-2245 | every whole number of milliseconds in the span is drawn by some random word |
| Backoff.DrawnOnce | crates/ariadeck-application/src/sync.rs:2237-2245 | the random word decides the delay |
| Backoff.SpanIsPercentage | crates/ariadeck-application/src/sync.rs:2237-2238 | the span is the configured percentage of the base, at most all of it, rounded down |
| Backoff.DelayAfterReset | crates/ariadeck-application/src/sync.rs:2216-2246 | after a reset the next delay is at most twice the configured base and never above the maximum, and its base is the least of all attempts |
| Backoff.AtMostDoubled | crates/ariadeck-application/src/sync.rs:2229-2246 | whatever the jitter, a delay is at most twice its base |
| Backoff.SpanFits | crates/ariadeck-application/src/sync.rs:2238-2242 | the span never exceeds the base, so neither the subtraction nor the width saturates |
| Backoff.BaseDelayMonotone | crates/ariadeck-application/src/sync.rs:2221-2228 | the delay before jitter never shrinks between resets and never passes the maximum |
| Backoff.BaseDelayDoubles | crates/ariadeck-application/src/sync.rs:2221-2228 | below the maximum every attempt doubles it |
| Backoff.BaseDelayLevels | crates/ariadeck-application/src/sync.rs:2221-2228 | at the maximum, and from the 31st attempt on, it grows no more |
| Backoff.XorshiftKnown | crates/ariadeck-application/src/sync.rs:2234-2236 | two words of the generator |
| Backoff.XorshiftKeepsNonzero | crates/ariadeck-application/src/sync.rs:2234-2236 | the random state is zero afterwards iff it was zero before |
| CoordinatorProps.StepInv | crates/ariadeck-application/src/sync.rs:839-1178 | every turn keeps the invariant: store valid and of the coordinator's generation, state and staleness fit the phase, the log is honest, the backoff counts the failures since the last reset; what each turn does to the store is stated by the rows of `CoordinatorTurns` |
| CoordinatorTurns.StartShows | crates/ariadeck-application/src/sync.rs:820-837 | the first attempt starts at generation 1 over a fresh store that shows the admitted history records and no engine list |
| CoordinatorTurns.ConnectTurnLeads | crates/ariadeck-application/src/sync.rs:870-953 | a connection leads to the first snapshot, a refused one to a failed attempt with its error |
| CoordinatorTurns.SnapshotTurnLeads | crates/ariadeck-application/src/sync.rs:963-1085 | a first snapshot brings the coordinator online with its statistics, total and live lists iff it has a version, a page within its total and no gid twice; otherwise it fails for good |
| CoordinatorTurns.InitialRefusedWith | crates/ariadeck-application/src/sync.rs:1893-1939 | the error of a first snapshot that is refused: of its version, its page or its live lists, in that order |
| CoordinatorTurns.InitialShowsLive | crates/ariadeck-application/src/sync.rs:1893-1939 | every task of its live lists shows what was fetched |
| CoordinatorTurns.InitialShowsPage | crates/ariadeck-application/src/sync.rs:1893-1939 | so does every task of its page that is within the total and not live |
| CoordinatorTurns.InitialShowsStopped | crates/ariadeck-application/src/sync.rs:1893-1939 | the stopped list is that of its page and of the kept pages below its total, without what is live |
| CoordinatorTurns.InitialShowsHistory | crates/ariadeck-application/src/sync.rs:1893-1939 | every admitted history record that is in none of its lists shows, field by field |
| CoordinatorTurns.GlobalTickTurn | crates/ariadeck-application/src/sync.rs:1642-1660 | a poll of the statistics stores exactly them, or drops the connection with its error |
| CoordinatorTurns.LiveTickTurn | crates/ariadeck-application/src/sync.rs:1661-1674 | a live poll leaves the fetched active list active and the fetched waiting list waiting, and forgets exactly the tasks that are no longer live; a repeated gid drops the connection, naming it |
| CoordinatorTurns.LiveTickShows | crates/ariadeck-application/src/sync.rs:1661-1674 | every task a live poll fetched reflects its snapshot over the earlier task |
| CoordinatorTurns.StoppedTickTurn | crates/ariadeck-application/src/sync.rs:1675-1714 | the stopped poll goes on with the refreshed pages, or drops the connection with their error and what they stored |
| CoordinatorTurns.ForceRefreshTurn | crates/ariadeck-application/src/sync.rs:1212-1229 | a forced refresh goes on with the fully refreshed store, or drops the connection likewise |
| CoordinatorTurns.RefreshTasksTurn | crates/ariadeck-application/src/sync.rs:1786-1807 | after a targeted refresh each answered task is gone or shows its last snapshot, and every other task is as it was |
| CoordinatorTurns.MismatchShows | crates/ariadeck-application/src/sync.rs:1786-1807 | an answer of another task stops it: the answers before it are shown, and the error names the two gids |
| CoordinatorTurns.LoadMoreTurn | crates/ariadeck-application/src/sync.rs:1245-1289 | while more is there, a page the store takes is stored and the history seeded behind it |
| CoordinatorTurns.LoadMoreFails | crates/ariadeck-application/src/sync.rs:1245-1289 | any other answer drops the connection with its error and leaves the store's contents |
| CoordinatorTurns.SetTaskCategoryTurn | crates/ariadeck-application/src/sync.rs:1230-1244 | a category is set, or with an empty one removed, for that gid only, and nothing else changes |
| CoordinatorTurns.RenameTurn | crates/ariadeck-application/src/sync.rs:1393-1404 | a command that renamed a known task leaves exactly that task with the name, for good; an unknown one drops the connection |
| CoordinatorTurns.RemovalTurn | crates/ariadeck-application/src/sync.rs:1405-1430 | a command that removed tasks takes exactly their history rows out of the store |
| CoordinatorTurns.RenameThenRemoval | crates/ariadeck-application/src/sync.rs:1393-1430 | the renaming comes first, and one that is refused keeps the removal from happening |
| CoordinatorTurns.RefusedCommandTurn | crates/ariadeck-application/src/sync.rs:1293-1307 | a command for another session, or without a gateway, reaches neither the engine nor the store |
| CoordinatorTurns.DropShows | crates/ariadeck-application/src/sync.rs:1112-1176 | a dropped connection leaves the store stale with its contents, logs the error, and rests the backoff iff it lasted long enough |
| CoordinatorTurns.EndTurn | crates/ariadeck-application/src/sync.rs:1107-1111 | a cancellation ends the coordinator and leaves its store and log alone |
| CoordinatorTurns.UnattendedTurn | crates/ariadeck-application/src/sync.rs:701-788 | whatever the coordinator does not attend to in its phase leaves it as it is |
| CoordinatorTurns.RetryTurn | crates/ariadeck-application/src/sync.rs:840-870 | a retry starts a session of the next generation over the same contents, now stale, and only a manual one after a final failure forgets the attempts |
| CoordinatorProps.StartInv | crates/ariadeck-application/src/sync.rs:820-837 | the first attempt starts in the invariant, whatever history was seeded |
| CoordinatorProps.RunInv | crates/ariadeck-application/src/sync.rs:839-1178 | the invariant holds after any sequence of turns |
| CoordinatorProps.RefreshKeeps | crates/ariadeck-application/src/sync.rs:1719-1754 | a full refresh, failed or not, keeps session, staleness and invariant, and meets no session error |
| CoordinatorProps.InitialKeeps | crates/ariadeck-application/src/sync.rs:1893-1939 | a first snapshot either clears the staleness or fails with an error that is not retried, and never with a session error |
| CoordinatorProps.InitialTakesSnapshot | crates/ariadeck-application/src/sync.rs:1893-1939 | a first snapshot is taken over whole, and of the tasks kept across the reconnect only those vanish that were live and are in neither its page nor its live lists |
| CoordinatorProps.LoadPageIsLoadMore | crates/ariadeck-application/src/sync.rs:1245-1289 | the coordinator's load-more turn, answered by an engine list, is the request whose repetition converges |
| CoordinatorProps.GenerationsAgree | crates/ariadeck-application/src/sync.rs:843-853 | over every run the store generation is the coordinator's and counts the attempts (up to saturation), so no request is refused as stale and no failure stems from a session error |
| CoordinatorProps.SnapshotsAndCallsAreHonest | crates/ariadeck-application/src/sync.rs:1290-1301 | over every run a snapshot served while connected is fresh, one served while disconnected, reconnecting or failed is stale, and engine calls happen only while connected for the store's exact session |
| CoordinatorProps.RetryBudget | crates/ariadeck-application/src/sync.rs:892-953 | with a limit m at most max(1, m) attempts fail between two backoff resets, in every run |
| CoordinatorProps.GivesUpIffSpent | crates/ariadeck-application/src/sync.rs:892-952 | a failed connection or snapshot request is final iff it is not retryable or the failures since the last reset reach the limit; otherwise the coordinator backs off |
| CoordinatorProps.DropGivesUpIffSpent | crates/ariadeck-application/src/sync.rs:1112-1176 | the same for a dropped connection, which counts as the first failure again if it lasted at least the reset time |
| CoordinatorProps.FailedSits | crates/ariadeck-application/src/sync.rs:912-935 | once failed, the coordinator makes no attempt and changes nothing until a forced refresh |
| CoordinatorProps.ForcedRefreshRetries | crates/ariadeck-application/src/sync.rs:715-717 | a forced refresh ends the wait with one attempt of the next generation, and resets the backoff only after a failure that was final |
| CoordinatorProps.ResetsAreEarned | crates/ariadeck-application/src/sync.rs:1112-1116 | the attempt counter drops only on a manual retry or after a connection that lasted at least the reset time |
| Supervisor.MonitorLocalEngine | crates/ariadeck-engine/src/lib.rs:1586-1678 | over every sequence of polls the pruned deque is the full restart log filtered to the window, and the published health is that of the run, which the rows below describe poll by poll |
| Supervisor.PruneFront | crates/ariadeck-engine/src/lib.rs:1596-1601 | popping old entries off the front filters the whole log to the window |
| Supervisor.PollOnce | crates/ariadeck-engine/src/lib.rs:1588-1677 | one turn of the loop on the deque refines one step on the full log; what the step publishes is stated by the rows below |
| Supervisor.RestartedPoll | crates/ariadeck-engine/src/lib.rs:1653-1663 | over any run: an exit answered by a restart that succeeds leaves a running health of the window's count with this attempt, and the monitor goes on |
| Supervisor.RestartFailedPoll | crates/ariadeck-engine/src/lib.rs:1664-1676 | over any run: a restart that fails ends the monitor as failed iff this attempt spends the budget, and otherwise leaves it restarting, with the window's count |
| Supervisor.SpentPoll | crates/ariadeck-engine/src/lib.rs:1639-1649 | over any run: an exit with the budget spent ends the monitor as failed without another attempt |
| Supervisor.WaitFailedPoll | crates/ariadeck-engine/src/lib.rs:1623-1636 | over any run: a failing wait ends the monitor as failed with the window's count |
| Supervisor.QuietPoll | crates/ariadeck-engine/src/lib.rs:1595-1637 | over any run: while the child runs, a running health shows the window's count and any other health stays |
| Supervisor.StopPoll | crates/ariadeck-engine/src/lib.rs:1588-1592 | over any run: a stop request ends the monitor and changes nothing else |
| Supervisor.EndsIff | crates/ariadeck-engine/src/lib.rs:1586-1678 | a monitor has ended iff it was stopped, waiting failed, the child exited with the budget spent, or a failed restart spent it |
| Supervisor.StartsRunning | crates/ariadeck-engine/src/lib.rs:1586-1588 | a monitor starts with a running engine and no attempt made |
| Supervisor.RunSound | crates/ariadeck-engine/src/lib.rs:1586-1678 | in every run the window never holds more than the allowed restarts, a running health reports exactly the deque length, and a failed monitor has ended |
| Supervisor.RestartBudget | crates/ariadeck-engine/src/lib.rs:1639-1676 | every closed time interval as long as the window holds at most the allowed number of restart attempts |
| Supervisor.GivesUpOnlyWhenSpent | crates/ariadeck-engine/src/lib.rs:1639-1675 | unless waiting for the process fails, the monitor gives up only with the whole budget spent |
| Supervisor.DoneIsFinal | crates/ariadeck-engine/src/lib.rs:1588-1592 | a failed or stopped monitor never changes again |
| FileSelection.ValidateMetadataIndices | crates/ariadeck-application/src/commands.rs:479-489 | accepts exactly the non-empty strictly ascending lists of positive indices |
| FileSelection.ValidateTaskIndices | crates/ariadeck-application/src/commands.rs:629-654 | accepts exactly the same lists |
| FileSelection.FormatSelectedFileIndices | crates/ariadeck-application/src/commands.rs:687-713 | the application's loop writes the specified text |
| FileSelection.FormatSelectedFileIndicesRpc | crates/ariadeck-rpc/src/client.rs:753-771 | the RPC copy writes the same text |
| FileSelection.RangesFacts | crates/ariadeck-application/src/commands.rs:687-713 | the ranges of a valid selection are proper, no two touch, and together they are the selection |
| FileSelection.SelectionRoundTrip | crates/ariadeck-application/src/commands.rs:687-713 | parsing the text of a valid selection gives the selection back |
| TrackerList.ParseTrackerList | crates/ariadeck-domain/src/tracker_list.rs:22-44 | the loop yields the first 2048 of the distinct accepted lines, in order |
| TrackerList.NamesTracker | crates/ariadeck-domain/src/tracker_list.rs:29-38 | the filters accept exactly the short, printable, comma-free and space-free http, https and udp addresses |
| TrackerList.AcceptedIff | crates/ariadeck-domain/src/tracker_list.rs:29-62 | a trimmed line is accepted iff it is no comment, has at most 2048 bytes, starts with http, https or udp in any capitalization, and has no control character, comma or blank |
| TrackerList.ParsedIsComplete | crates/ariadeck-domain/src/tracker_list.rs:22-44 | a list below 2048 entries misses no accepted line, and no list is longer |
| TrackerList.FirstLine | crates/ariadeck-domain/src/tracker_list.rs:25 | a text is split at its line feeds, and a carriage return before one is dropped |
| TrackerList.Utf8LenAdds | crates/ariadeck-domain/src/tracker_list.rs:33-35 | the length in bytes adds up over the characters, one to four each |
| TrackerList.ParsedClean | crates/ariadeck-domain/src/tracker_list.rs:22-44 | every parsed list is distinct, within the cap, trimmed and accepted |
| TrackerList.TextRoundTrip | crates/ariadeck-domain/src/tracker_list.rs:54-56 | a clean list written as text and parsed again is the same list |
| TrackerList.ParseFormatParse | crates/ariadeck-domain/src/tracker_list.rs:48-56 | parsing is settled after one round, and splitting the option text on commas gives the parsed entries |
| WaitingPages.CompleteWaitingSnapshot | crates/ariadeck-rpc/src/client.rs:593-624 | the two loops return the first page followed by the answers in call order, or the first error |
| WaitingPages.CallsTile | crates/ariadeck-rpc/src/client.rs:608-618 | the extra calls cover the missing range end to end, without overlap, in pages of 1 to 1000 |
| WaitingPages.CallsAreFull | crates/ariadeck-rpc/src/client.rs:608-618 | every call but the last asks for 1000 |
| WaitingPages.CompletedCases | crates/ariadeck-rpc/src/client.rs:593-624 | every way a completion ends: a list too long to count is invalid, one long enough is the answer, and otherwise the batch fails as a whole, or with the first of its calls that fails, or not at all |
| WaitingPages.CollectConcatenates | crates/ariadeck-rpc/src/client.rs:618-624 | each answer is in its place behind the answers of the calls before it |
| WaitingPages.CompletesTheQueue | crates/ariadeck-rpc/src/client.rs:593-624 | against an unchanging queue any loaded prefix is completed to the whole queue in order |
| Batch.ExecuteBatch | crates/ariadeck-application/src/commands.rs:1446-1578 | outcome and calls of the loop are those of the distinct identities in first-occurrence order |
| Batch.RetryTasks | crates/ariadeck-application/src/commands.rs:1580-1669 | outcome and calls of the retry loop are those of the distinct identities in first-occurrence order |
| Batch.OutcomeConservesCount | crates/ariadeck-application/src/commands.rs:1683-1695 | for non-empty input successes and failures add up to the distinct identities, and the no-result branch is never taken |
| Batch.ActionsPartition | crates/ariadeck-application/src/commands.rs:1470-1577 | each distinct identity succeeds or fails, never both, in first-occurrence order |
| Batch.OutcomePartitions | crates/ariadeck-application/src/commands.rs:1446-1578 | the outcome of an action batch splits the given identities into succeeded and failed ones, never both, in first-occurrence order |
| Batch.AttemptsPartition | crates/ariadeck-application/src/commands.rs:1592-1668 | failures name exactly the identities that failed, and the successes answer the remaining ones one by one |
| Batch.CallsAreAllowed | crates/ariadeck-application/src/commands.rs:1472-1569 | every engine call belongs to an identity that passed the profile, presence, status and capability checks, and no call is made twice |
| Batch.RetriesAreReplays | crates/ariadeck-application/src/commands.rs:1592-1667 | every retry replays a failed task of this profile from a source it knows, each at most once |
| BatchResults.ActionAnswers | crates/ariadeck-application/src/commands.rs:1470-1577 | for each given task: the error of the first of the profile, presence, status and capability checks it fails, or the engine's answer to the action on it |
| BatchResults.ActionCalls | crates/ariadeck-application/src/commands.rs:1493-1567 | the calls are the actions on exactly the tasks that pass every check, in the order given, a removal naming the result of a task that is over and otherwise the live task |
| BatchResults.TablesAgree | crates/ariadeck-application/src/commands.rs:1494-1537 | which actions each status admits, and the engine method each action needs |
| BatchResults.RetryAnswers | crates/ariadeck-application/src/commands.rs:1592-1667 | for each given task: the error of the first check it fails, or the engine's answer to its replay, which is a new task of the same profile |
| BatchResults.RetryCalls | crates/ariadeck-application/src/commands.rs:1631-1660 | the calls are the replays of exactly the failed tasks with a source, in the order given, from the address or else a magnet link, into the same directory |
| BatchResults.OutcomeKind | crates/ariadeck-application/src/commands.rs:1683-1695 | the outcome is a success iff every task succeeded, a failure iff none did |
| BatchResults.FailuresFollow | crates/ariadeck-application/src/commands.rs:1470-1577 | the failures come in the order of the tasks, each with its error |
| BatchResults.NothingGiven | crates/ariadeck-application/src/commands.rs:1446-1466 | no task given is a validation failure without a call |

## Left out

- Speed history and seeding observations: the bounded speed samples and the map of seeding start times are not part of the store model. The map is not cleaned by history seeding or history-only removal, so it has no invariant over all operations.
- Removed gids of a patch: the original pushes them while iterating hash sets, whose order is unspecified. The model keeps the set; each gid occurs once.
- Stored tasks: a task value in the map is updated by taking it out and putting the updated value back; `&mut self` of a task is an in-parameter and an out-parameter. No aliasing exists in the original either.
- Category affiliations: they arrive as a list; the iteration order of the original's source is whatever the history adapter returns.
- Page map: the ordered map from offsets to pages is a sequence of entries in key order.
- Lower-casing: full Unicode lower-casing is an open function of the store; every claim holds for any such function.
- Library sort: sorting is modelled by insertion; `View.SortIsUnique` shows that no correct sort could differ.
- Session ids, clocks and the seed of the random state: inputs. Sleeping and poll intervals of the supervisor are not modelled.
- Concurrency of the coordinator: each completed wait is one atomic turn. A cancellation during a refresh ends the coordinator without the partly refreshed store being observed. Timer rates, the activity mode, the bookkeeping of pending notifications, and the broadcast of events are not modelled; a debounced full refresh has the effect of a forced one.
- Coordinator state: the local variables of the coordinator loop and its store are one value that a turn replaces, not fields updated in place; the store operations, the full refresh and the reconnect delays it uses are also proved in place.
- Coordinator commands: a command executed through the coordinator is reduced to the engine call and its effect on the store; the batch commands are modelled on their own. Task details, connection details and the application of settings only matter as calls.
- Writing durable history: apart from the category rows of `StoreLimits.Persisted`, what the coordinator stores in or deletes from the history is not modelled; what it reads back is an input.
- Engine capabilities: only the version check of the first snapshot and the method list of batch commands are kept.
- Error texts: messages and reasons are dropped; error kinds, codes and their payloads are kept.
- Reading the file selection: the reader of the option text is the engine, which is not part of this repository; the parser of the model follows the documented form of comma-separated numbers and ranges.
- Decoding of waiting pages: a failed decode of an answer is folded into that call's error.
- File system, processes, user interface, SQLite, JSON and WebSocket decoding, keyring, URL and torrent parsing: outside of this model.
