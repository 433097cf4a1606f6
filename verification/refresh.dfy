/** The full refresh: stopped pages first, then the live lists, then a history seed. */
module Refresh {
  import opened Prelude
  import opened Seqs
  import opened Tasks
  import Pages
  import opened StoreSpec
  import opened StoreProps
  import opened Store
  import opened Paging

  type PageAnswer = Result<StoppedPage, SyncError>

  /** What the engine answers during one refresh; every offset is asked for at most once. */
  datatype EngineAnswers = EngineAnswers(
    stat: Result<GlobalStat, SyncError>, live: Result<LiveSnapshot, SyncError>, page: U64 -> PageAnswer)

  /** The store a refresh leaves, the gids its patches removed, the gids its pages held, and its error. */
  datatype RefreshRun = RefreshRun(store: StoreState, removed: set<Gid>, paged: set<Gid>, error: Option<SyncError>)

  function PageGids(p: StoppedPage): set<Gid>
    requires p.offset <= p.total
  {
    Elems(Gids(Kept(p.offset, Some(p.total), p.tasks)))
  }

  /** Accepted pages add to the run; the first refused or failed one ends it. */
  function AddPage(run: RefreshRun, generation: U64, answer: PageAnswer): RefreshRun {
    match answer
    case Failure(error) => run.(error := Some(error))
    case Success(p) =>
      match ApplyStoppedPage(run.store, generation, p.offset, Some(p.total), p.tasks)
      case Rejected(error) => run.(error := Some(StoreFailure(error)))
      case Applied(store, patch) =>
        RefreshRun(store, run.removed + patch.removed, run.paged + PageGids(p), None)
  }

  /** The loop over the loaded pages, `offset` onwards. */
  function RefreshPages(run: RefreshRun, generation: U64, pageSize: nat, through: nat, offset: U64,
                        page: U64 -> PageAnswer): RefreshRun
    requires pageSize >= 1 && through <= U64_MAX
    decreases if offset < through then through - offset else 0
  {
    var next := AddPage(run, generation, page(offset));
    if next.error.Some? then next
    else
      var offset' := SatAdd(offset, pageSize);
      if offset' >= through || offset' >= page(offset).value.total then next
      else RefreshPages(next, generation, pageSize, through, offset', page)
  }

  function RefreshLoaded(run: RefreshRun, generation: U64, stoppedPageSize: U32, page: U64 -> PageAnswer): RefreshRun {
    var pageSize := Max(stoppedPageSize, 1);
    RefreshPages(run, generation, pageSize, Max(Pages.NextOffset(run.store.stoppedPages, 0), pageSize), 0, page)
  }

  function RefreshAll(st: StoreState, generation: U64, stoppedPageSize: U32, answers: EngineAnswers,
                      history: HistoryAnswer): RefreshRun {
    var start := RefreshRun(st, {}, {}, None);
    if answers.stat.Failure? then start.(error := Some(answers.stat.error))
    else if answers.live.Failure? then start.(error := Some(answers.live.error))
    else
      match UpdateGlobalStat(st, generation, answers.stat.value)
      case Rejected(error) => start.(error := Some(StoreFailure(error)))
      case Applied(counted, _) =>
        var paged := RefreshLoaded(start.(store := counted), generation, stoppedPageSize, answers.page);
        if paged.error.Some? then paged
        else
          match ReconcileLive(paged.store, generation, answers.live.value.active, answers.live.value.waiting)
          case Rejected(error) => paged.(error := Some(StoreFailure(error)))
          case Applied(live, patch) =>
            paged.(store := SeedInto(live, generation, history), removed := paged.removed + patch.removed)
  }

  // ----- What the pages of a refresh do to the store

  /** Pages only take gids out of the live lists; nothing is reported removed. */
  ghost predicate PagedFrom(st: StoreState, run: RefreshRun) {
    && run.store.Valid() && run.store.session == st.session && run.store.stale == st.stale
    && run.store.activeOrder == Without(st.activeOrder, run.paged)
    && run.store.waitingOrder == Without(st.waitingOrder, run.paged)
    && st.tasks.Keys + run.paged == run.store.tasks.Keys
    && run.removed == {}
  }

  lemma PageMoves(st: StoreState, run: RefreshRun, offset: U64, total: U64, kept: seq<TaskSnapshot>)
    requires PagedFrom(st, run)
    ensures var after := PageApplied(run.store, offset, Some(total), kept).store;
            var paged := run.paged + Elems(Gids(kept));
            && after.activeOrder == Without(st.activeOrder, paged)
            && after.waitingOrder == Without(st.waitingOrder, paged)
            && after.session == st.session && after.stale == st.stale
  {
    WithoutTwice(st.activeOrder, run.paged, Elems(Gids(kept)));
    WithoutTwice(st.waitingOrder, run.paged, Elems(Gids(kept)));
  }

  lemma PageAdds(st: StoreState, run: RefreshRun, offset: U64, total: U64, kept: seq<TaskSnapshot>)
    requires run.store.tasks.Keys == st.tasks.Keys + run.paged
    ensures var r := PageApplied(run.store, offset, Some(total), kept);
            r.store.tasks.Keys == st.tasks.Keys + (run.paged + Elems(Gids(kept))) && r.patch.removed == {}
  {
    UpsertAllKeys(run.store.tasks, kept);
  }

  lemma PageStep(st: StoreState, run: RefreshRun, generation: U64, answer: PageAnswer)
    requires PagedFrom(st, run)
    ensures PagedFrom(st, AddPage(run, generation, answer))
  {
    if answer.Success? {
      var p := answer.value;
      if ApplyStoppedPage(run.store, generation, p.offset, Some(p.total), p.tasks).Applied? {
        var kept := Kept(p.offset, Some(p.total), p.tasks);
        KeptDistinct(p.offset, Some(p.total), p.tasks);
        PageAppliedValid(run.store, p.offset, Some(p.total), kept);
        PageMoves(st, run, p.offset, p.total, kept);
        PageAdds(st, run, p.offset, p.total, kept);
      }
    }
  }

  lemma {:induction false} PagesKeepFrom(st: StoreState, run: RefreshRun, generation: U64, pageSize: nat, through: nat,
                                         offset: U64, page: U64 -> PageAnswer)
    requires pageSize >= 1 && through <= U64_MAX && PagedFrom(st, run)
    ensures PagedFrom(st, RefreshPages(run, generation, pageSize, through, offset, page))
    decreases if offset < through then through - offset else 0
  {
    var next := AddPage(run, generation, page(offset));
    PageStep(st, run, generation, page(offset));
    var offset' := SatAdd(offset, pageSize);
    if next.error.None? && offset' < through && offset' < page(offset).value.total {
      PagesKeepFrom(st, next, generation, pageSize, through, offset', page);
    }
  }

  lemma StartPagedFrom(st: StoreState)
    requires st.Valid()
    ensures PagedFrom(st, RefreshRun(st, {}, {}, None))
  {
    WithoutNothing(st.activeOrder, {});
    WithoutNothing(st.waitingOrder, {});
  }

  lemma SettledRemovals(st: StoreState, paged: RefreshRun)
    requires PagedFrom(st, paged)
    ensures paged.store.Live() == st.Live() - paged.paged
  {
  }

  lemma PagesPart(st: StoreState, generation: U64, pageSize: U32, answers: EngineAnswers)
    requires st.Valid() && generation == st.session.generation && answers.stat.Success?
    ensures var counted := UpdateGlobalStat(st, generation, answers.stat.value).store;
            var paged := RefreshLoaded(RefreshRun(counted, {}, {}, None), generation, pageSize, answers.page);
            && paged.store.Valid() && paged.store.session == st.session && paged.store.stale == st.stale
            && paged.removed == {} && paged.store.Live() == st.Live() - paged.paged
            && paged.store.tasks.Keys == st.tasks.Keys + paged.paged
  {
    var counted := UpdateGlobalStat(st, generation, answers.stat.value).store;
    var start := RefreshRun(counted, {}, {}, None);
    StartPagedFrom(counted);
    var size := Max(pageSize, 1);
    PagesKeepFrom(counted, start, generation, size, Max(Pages.NextOffset(counted.stoppedPages, 0), size), 0,
                  answers.page);
    SettledRemovals(counted, RefreshLoaded(start, generation, pageSize, answers.page));
  }

  lemma LiveStep(st: StoreState, generation: U64, live: LiveSnapshot, history: HistoryAnswer)
    requires st.Valid() && ReconcileLive(st, generation, live.active, live.waiting).Applied?
    ensures var r := ReconcileLive(st, generation, live.active, live.waiting);
            var after := SeedInto(r.store, generation, history);
            && after.Valid() && after.session == st.session && after.stale == st.stale
            && after.activeOrder == Gids(live.active) && after.waitingOrder == Gids(live.waiting)
  {
    var r := ReconcileLive(st, generation, live.active, live.waiting);
    ReconciledValid(st, live.active, live.waiting);
    SeedIntoFacts(r.store, generation, history);
  }

  lemma LiveStepRemoves(st: StoreState, generation: U64, live: LiveSnapshot)
    requires st.Valid() && ReconcileLive(st, generation, live.active, live.waiting).Applied?
    ensures ReconcileLive(st, generation, live.active, live.waiting).patch.removed
            == st.Live() - (Elems(Gids(live.active)) + Elems(Gids(live.waiting)))
  {
    LiveGids(live.active, live.waiting);
  }

  lemma SeedIntoKeeps(st: StoreState, generation: U64, history: HistoryAnswer)
    ensures st.tasks.Keys <= SeedInto(st, generation, history).tasks.Keys
  {
  }

  lemma LiveStepKeys(st: StoreState, generation: U64, live: LiveSnapshot, history: HistoryAnswer)
    requires st.Valid() && ReconcileLive(st, generation, live.active, live.waiting).Applied?
    ensures var r := ReconcileLive(st, generation, live.active, live.waiting);
            var newLive := Elems(Gids(live.active)) + Elems(Gids(live.waiting));
            st.tasks.Keys + newLive - r.patch.removed <= SeedInto(r.store, generation, history).tasks.Keys
  {
    LiveGids(live.active, live.waiting);
    ReconciledKeys(st, live.active, live.waiting);
    SeedIntoKeeps(ReconcileLive(st, generation, live.active, live.waiting).store, generation, history);
  }

  /**
   A full refresh loses nothing: the live orders become the fetched lists, and the gids reported removed are
   exactly the live ones found neither in an accepted stopped page nor in the fetched lists.
   */
  lemma FullRefreshLosesNothing(st: StoreState, generation: U64, pageSize: U32, answers: EngineAnswers,
                                history: HistoryAnswer)
    requires st.Valid() && RefreshAll(st, generation, pageSize, answers, history).error.None?
    ensures var run := RefreshAll(st, generation, pageSize, answers, history);
            var (active, waiting) := (Gids(answers.live.value.active), Gids(answers.live.value.waiting));
            && run.store.Valid() && run.store.session == st.session && run.store.stale == st.stale
            && run.store.activeOrder == active && run.store.waitingOrder == waiting
            && run.removed == st.Live() - run.paged - Elems(active) - Elems(waiting)
            && (st.tasks.Keys - run.removed) + run.paged + Elems(active) + Elems(waiting) <= run.store.tasks.Keys
  {
    var counted := UpdateGlobalStat(st, generation, answers.stat.value).store;
    var paged := RefreshLoaded(RefreshRun(counted, {}, {}, None), generation, pageSize, answers.page);
    PagesPart(st, generation, pageSize, answers);
    LiveStep(paged.store, generation, answers.live.value, history);
    LiveStepRemoves(paged.store, generation, answers.live.value);
    LiveStepKeys(paged.store, generation, answers.live.value, history);
  }

  // ----- The loops, on the store in place

  /** `removed` and `paged` collect what the emitted patches reported and what the pages held. */
  method RefreshLoadedStoppedPages(store: DownloadStore, generation: U64, stoppedPageSize: U32, page: U64 -> PageAnswer)
    returns (removed: set<Gid>, paged: set<Gid>, error: Option<SyncError>)
    requires store.Valid()
    modifies store
    ensures store.Valid()
    ensures RefreshRun(store.State(), removed, paged, error)
            == RefreshLoaded(RefreshRun(old(store.State()), {}, {}, None), generation, stoppedPageSize, page)
  {
    removed, paged, error := {}, {}, None;
    var pageSize := Max(stoppedPageSize, 1);
    var loaded := store.NextStoppedOffset();
    var through := Max(loaded, pageSize);
    var offset: U64 := 0;
    var done := false;
    ghost var all := RefreshLoaded(RefreshRun(store.State(), {}, {}, None), generation, stoppedPageSize, page);
    while !done
      invariant store.Valid()
      invariant !done ==> error.None? && (offset == 0 || offset < through)
      invariant !done ==>
        RefreshPages(RefreshRun(store.State(), removed, paged, error), generation, pageSize, through, offset, page)
        == all
      invariant done ==> RefreshRun(store.State(), removed, paged, error) == all
      decreases !done, through - offset
    {
      match page(offset) {
        case Failure(failure) =>
          error, done := Some(failure), true;
        case Success(answer) =>
          var r := store.ApplyStoppedPage(generation, answer.offset, Some(answer.total), answer.tasks);
          match r {
            case Failure(refused) =>
              error, done := Some(StoreFailure(refused)), true;
            case Success(patch) =>
              removed, paged := removed + patch.removed, paged + PageGids(answer);
              offset := SatAdd(offset, pageSize);
              done := offset >= through || offset >= answer.total;
          }
      }
    }
  }

  method SeedHistory(store: DownloadStore, generation: U64, history: HistoryAnswer)
    requires store.Valid()
    modifies store
    ensures store.Valid()
    ensures store.State() == SeedInto(old(store.State()), generation, history)
  {
    if history.records.Some? {
      var r := store.SeedLocalHistory(generation, history.records.value);
    }
    if history.categories.Some? {
      store.SetCategoryAffiliations(history.categories.value);
    }
  }

  method RefreshStore(store: DownloadStore, generation: U64, stoppedPageSize: U32, answers: EngineAnswers,
                      history: HistoryAnswer)
    returns (removed: set<Gid>, paged: set<Gid>, error: Option<SyncError>)
    requires store.Valid()
    modifies store
    ensures store.Valid()
    ensures RefreshRun(store.State(), removed, paged, error)
            == RefreshAll(old(store.State()), generation, stoppedPageSize, answers, history)
  {
    removed, paged := {}, {};
    if answers.stat.Failure? {
      return {}, {}, Some(answers.stat.error);
    }
    if answers.live.Failure? {
      return {}, {}, Some(answers.live.error);
    }
    var counted := store.UpdateGlobalStat(generation, answers.stat.value);
    if counted.Failure? {
      return {}, {}, Some(StoreFailure(counted.error));
    }
    removed, paged, error := RefreshLoadedStoppedPages(store, generation, stoppedPageSize, answers.page);
    if error.Some? {
      return;
    }
    var live := store.ReconcileLive(generation, answers.live.value.active, answers.live.value.waiting);
    match live {
      case Failure(refused) => return removed, paged, Some(StoreFailure(refused));
      case Success(patch) =>
        removed := removed + patch.removed;
        SeedHistory(store, generation, history);
    }
  }
}
