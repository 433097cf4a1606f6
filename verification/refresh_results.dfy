/** What a history seed and a full refresh leave behind, and which errors they end with. */
module RefreshResults {
  import opened Prelude
  import opened Seqs
  import opened Tasks
  import Pages
  import opened StoreSpec
  import opened StoreProps
  import opened StoreDiff
  import opened StoreCalls
  import opened Paging
  import opened Refresh
  import opened RefreshedPages

  // ----- A history seed

  /** The history was read, and the seed is of the store's generation. */
  predicate Reads(st: StoreState, generation: U64, history: HistoryAnswer) {
    history.records.Some? && generation == st.session.generation
  }

  /** After a seed each admitted record shows, the last one of its gid deciding. */
  lemma SeedShowsRecord(st: StoreState, generation: U64, history: HistoryAnswer, k: nat)
    requires Reads(st, generation, history) && LastAdmitted(st, history.records.value, k)
    ensures var (after, r) := (SeedInto(st, generation, history), history.records.value[k]);
            && r.gid in after.tasks && ShowsRecord(after.tasks[r.gid], r)
            && r.gid in after.historyOrder && r.gid in after.searchIndex
            && after.searchIndex[r.gid] == st.lower(r.displayName)
  {
    SeededShowsRecord(st, generation, history.records.value, k);
  }

  /** The history rows afterwards are exactly the admitted gids; without a reading nothing of this changes. */
  lemma SeedRowsAndRest(st: StoreState, generation: U64, history: HistoryAnswer, g: Gid)
    ensures var after := SeedInto(st, generation, history);
            if Reads(st, generation, history) then
              && (g in after.historyOrder <==>
                  exists k :: 0 <= k < |history.records.value| && Admits(st, history.records.value[k]) &&
                              history.records.value[k].gid == g)
              && (g !in after.historyOrder ==> (g in after.tasks <==> g in st.tasks))
              && (g !in after.historyOrder && g in st.tasks ==> after.tasks[g] == st.tasks[g])
            else after.tasks == st.tasks && after.historyOrder == st.historyOrder && after.revision == st.revision
  {
    if Reads(st, generation, history) {
      SeededRowsAreAdmitted(st, generation, history.records.value, g);
    }
  }

  /** The categories afterwards are the ones that were read, or the former ones. */
  lemma SeedCategories(st: StoreState, generation: U64, history: HistoryAnswer, g: Gid)
    ensures var after := SeedInto(st, generation, history);
            if history.categories.None? then after.categoryByGid == st.categoryByGid
            else
              && (g in after.categoryByGid <==> exists i :: Affiliates(history.categories.value, g, i))
              && (forall i :: Affiliates(history.categories.value, g, i) &&
                              (forall j :: i < j ==> !Affiliates(history.categories.value, g, j)) ==>
                                after.categoryByGid[g] == history.categories.value[i].1)
  {
    if history.categories.Some? {
      AffiliationsLastWins(history.categories.value, g);
    }
  }

  /** A seed leaves what the engine lists as it is. */
  lemma SeedLeavesListed(st: StoreState, generation: U64, history: HistoryAnswer, g: Gid)
    requires st.Valid() && (g in st.activeOrder || g in st.waitingOrder || g in st.stoppedOrder)
    ensures var after := SeedInto(st, generation, history);
            g in after.tasks && after.tasks[g] == st.tasks[g] && g !in after.historyOrder
  {
    assert g in Elems(st.activeOrder) + Elems(st.waitingOrder) + Elems(st.stoppedOrder);
    SeedRowsAndRest(st, generation, history, g);
    assert g in st.historyOrder ==> g in Elems(st.historyOrder);
  }

  // ----- The statistics of a refresh

  lemma AddPageKeepsStat(run: RefreshRun, generation: U64, answer: PageAnswer)
    ensures AddPage(run, generation, answer).store.globalStat == run.store.globalStat
    ensures AddPage(run, generation, answer).store.session == run.store.session
  {
    if answer.Success? {
      var p := answer.value;
      var op := StoreOp.Page(generation, p.offset, Some(p.total), p.tasks);
      if Perform(run.store, op).Applied? {
        PerformTouchesOnly(run.store, op);
      }
    }
  }

  lemma {:induction false} PagesKeepStat(run: RefreshRun, generation: U64, pageSize: nat, through: nat, offset: U64,
                                         page: U64 -> PageAnswer)
    requires pageSize >= 1 && through <= U64_MAX
    ensures RefreshPages(run, generation, pageSize, through, offset, page).store.globalStat == run.store.globalStat
    ensures RefreshPages(run, generation, pageSize, through, offset, page).store.session == run.store.session
    decreases if offset < through then through - offset else 0
  {
    var next := AddPage(run, generation, page(offset));
    AddPageKeepsStat(run, generation, page(offset));
    var offset' := SatAdd(offset, pageSize);
    if next.error.None? && offset' < through && offset' < page(offset).value.total {
      PagesKeepStat(next, generation, pageSize, through, offset', page);
    }
  }

  lemma LoadedKeepsStat(run: RefreshRun, generation: U64, stoppedPageSize: U32, page: U64 -> PageAnswer)
    ensures RefreshLoaded(run, generation, stoppedPageSize, page).store.globalStat == run.store.globalStat
    ensures RefreshLoaded(run, generation, stoppedPageSize, page).store.session == run.store.session
  {
    var size := Max(stoppedPageSize, 1);
    PagesKeepStat(run, generation, size, Max(Pages.NextOffset(run.store.stoppedPages, 0), size), 0, page);
  }

  lemma SeedIntoKeepsStat(st: StoreState, generation: U64, history: HistoryAnswer)
    ensures SeedInto(st, generation, history).globalStat == st.globalStat
  {
  }

  lemma ReconcileKeepsStat(st: StoreState, generation: U64, live: LiveSnapshot)
    requires ReconcileLive(st, generation, live.active, live.waiting).Applied?
    ensures ReconcileLive(st, generation, live.active, live.waiting).store.globalStat == st.globalStat
  {
  }

  /** Once both queries were answered, the fetched statistics are in the store, however the refresh goes on. */
  lemma RefreshStoresStatistics(st: StoreState, generation: U64, pageSize: U32, answers: EngineAnswers,
                                history: HistoryAnswer)
    requires generation == st.session.generation && answers.stat.Success? && answers.live.Success?
    ensures RefreshAll(st, generation, pageSize, answers, history).store.globalStat == answers.stat.value
  {
    var counted := UpdateGlobalStat(st, generation, answers.stat.value).store;
    LoadedKeepsStat(RefreshRun(counted, {}, {}, None), generation, pageSize, answers.page);
    var paged := RefreshLoaded(RefreshRun(counted, {}, {}, None), generation, pageSize, answers.page);
    var live := answers.live.value;
    if paged.error.None? && ReconcileLive(paged.store, generation, live.active, live.waiting).Applied? {
      ReconcileKeepsStat(paged.store, generation, live);
      SeedIntoKeepsStat(ReconcileLive(paged.store, generation, live.active, live.waiting).store, generation, history);
    }
  }

  // ----- The errors of a refresh

  /** Before both queries are answered, and for another generation, the store is left as it is. */
  lemma RefreshStopsEarly(st: StoreState, generation: U64, pageSize: U32, answers: EngineAnswers,
                          history: HistoryAnswer)
    ensures var run := RefreshAll(st, generation, pageSize, answers, history);
            && (answers.stat.Failure? ==> run == RefreshRun(st, {}, {}, Some(answers.stat.error)))
            && (answers.stat.Success? && answers.live.Failure? ==>
                run == RefreshRun(st, {}, {}, Some(answers.live.error)))
            && (answers.stat.Success? && answers.live.Success? && generation != st.session.generation ==>
                  var cause := StaleGeneration(st.session.generation, generation);
                  run == RefreshRun(st, {}, {}, Some(SyncError(Internal, Some(cause), false))))
  {
  }

  /** A page request was answered with a page the store takes. */
  ghost predicate Good(answer: PageAnswer) {
    answer.Success? && Distinct(Gids(answer.value.tasks)) && answer.value.offset <= answer.value.total
  }

  /** The error of an answer the store does not take, or that is none. */
  ghost predicate Explains(answer: PageAnswer, error: SyncError) {
    if answer.Failure? then error == answer.error
    else
      && error.kind == Internal && !error.retryable && error.cause.Some?
      && (if Distinct(Gids(answer.value.tasks))
          then answer.value.offset > answer.value.total &&
               error.cause.value == InvalidStoppedPage(answer.value.offset, answer.value.total)
          else error.cause.value.DuplicateGid? && FirstRepeat(Gids(answer.value.tasks), error.cause.value.gid))
  }

  lemma PageGoodIff(run: RefreshRun, generation: U64, answer: PageAnswer)
    requires generation == run.store.session.generation
    ensures var next := AddPage(run, generation, answer);
            if Good(answer) then next.error.None?
            else next.error.Some? && Explains(answer, next.error.value) && next.store == run.store
  {
    if answer.Success? {
      var p := answer.value;
      var op := StoreOp.Page(generation, p.offset, Some(p.total), p.tasks);
      AcceptedIff(run.store, op);
      if Perform(run.store, op).Rejected? {
        RefusedWith(run.store, op);
      }
    }
  }

  /** The error of the page loop is that of an answer which is not good; a bad first answer leaves the store alone. */
  lemma {:induction false} PagesErrorExplained(run: RefreshRun, generation: U64, pageSize: nat, through: nat,
                                               offset: U64, page: U64 -> PageAnswer)
    requires generation == run.store.session.generation && pageSize >= 1 && through <= U64_MAX
    ensures var r := RefreshPages(run, generation, pageSize, through, offset, page);
            && (r.error.Some? ==> exists o :: !Good(page(o)) && Explains(page(o), r.error.value))
            && (!Good(page(offset)) ==> r.error.Some? && Explains(page(offset), r.error.value) && r.store == run.store)
    decreases if offset < through then through - offset else 0
  {
    var next := AddPage(run, generation, page(offset));
    PageGoodIff(run, generation, page(offset));
    AddPageKeepsStat(run, generation, page(offset));
    var offset' := SatAdd(offset, pageSize);
    if next.error.None? && offset' < through && offset' < page(offset).value.total {
      PagesErrorExplained(next, generation, pageSize, through, offset', page);
    }
  }

  lemma LoadedErrorExplained(run: RefreshRun, generation: U64, stoppedPageSize: U32, page: U64 -> PageAnswer)
    requires generation == run.store.session.generation
    ensures var r := RefreshLoaded(run, generation, stoppedPageSize, page);
            && (r.error.Some? ==> exists o :: !Good(page(o)) && Explains(page(o), r.error.value))
            && (!Good(page(0)) ==> r.error.Some? && Explains(page(0), r.error.value) && r.store == run.store)
  {
    var size := Max(stoppedPageSize, 1);
    PagesErrorExplained(run, generation, size, Max(Pages.NextOffset(run.store.stoppedPages, 0), size), 0, page);
  }

  /** The offsets a refresh of the loaded pages asks for: one page apart, from `offset` up to its end. */
  predicate Asked(offset: nat, pageSize: nat, end: nat, o: nat)
    requires pageSize >= 1
  {
    o == offset || (offset < o < end && Multiple(o - offset, pageSize))
  }

  /** Every answer that is a page reports this total. */
  ghost predicate Reports(page: U64 -> PageAnswer, total: U64) {
    forall o :: page(o).Success? ==> page(o).value.total == total
  }

  lemma AskedOn(offset: nat, pageSize: nat, end: nat, o: nat)
    requires pageSize >= 1
    ensures Asked(offset, pageSize, end, o) <==>
            o == offset || (offset + pageSize < end && Asked(offset + pageSize, pageSize, end, o))
  {
    if o >= offset + pageSize {
      NextMultiple(o - offset - pageSize, pageSize);
    }
  }

  /** The page loop reads no answer but those it asks for. */
  lemma {:induction false} PagesReadAsked(run: RefreshRun, generation: U64, pageSize: nat, through: nat, offset: U64,
                                          page: U64 -> PageAnswer, other: U64 -> PageAnswer, total: U64)
    requires pageSize >= 1 && through <= U64_MAX && Reports(page, total)
    requires forall o: U64 :: Asked(offset, pageSize, Min(through, total), o) ==> page(o) == other(o)
    ensures RefreshPages(run, generation, pageSize, through, offset, page)
            == RefreshPages(run, generation, pageSize, through, offset, other)
    decreases if offset < through then through - offset else 0
  {
    var next, offset' := AddPage(run, generation, page(offset)), SatAdd(offset, pageSize);
    assert Asked(offset, pageSize, Min(through, total), offset);
    if next.error.None? && offset' < through && offset' < page(offset).value.total {
      forall o: U64 | Asked(offset', pageSize, Min(through, total), o) ensures page(o) == other(o) {
        AskedOn(offset, pageSize, Min(through, total), o);
      }
      PagesReadAsked(next, generation, pageSize, through, offset', page, other, total);
    }
  }

  /** It succeeds exactly when every answer it asks for is good. */
  lemma {:induction false} PagesSucceedIff(run: RefreshRun, generation: U64, pageSize: nat, through: nat, offset: U64,
                                           page: U64 -> PageAnswer, total: U64)
    requires generation == run.store.session.generation && pageSize >= 1 && through <= U64_MAX && Reports(page, total)
    ensures RefreshPages(run, generation, pageSize, through, offset, page).error.None? <==>
            forall o: U64 :: Asked(offset, pageSize, Min(through, total), o) ==> Good(page(o))
    decreases if offset < through then through - offset else 0
  {
    var next, offset' := AddPage(run, generation, page(offset)), SatAdd(offset, pageSize);
    PageGoodIff(run, generation, page(offset));
    AddPageKeepsStat(run, generation, page(offset));
    assert Asked(offset, pageSize, Min(through, total), offset);
    if next.error.None? {
      forall o: U64 | Asked(offset, pageSize, Min(through, total), o)
        ensures o == offset ||
                (offset' < through && offset' < total && Asked(offset', pageSize, Min(through, total), o))
      {
        AskedOn(offset, pageSize, Min(through, total), o);
      }
    }
    if next.error.None? && offset' < through && offset' < page(offset).value.total {
      PagesSucceedIff(next, generation, pageSize, through, offset', page, total);
      forall o: U64 | Asked(offset', pageSize, Min(through, total), o)
        ensures Asked(offset, pageSize, Min(through, total), o)
      {
        AskedOn(offset, pageSize, Min(through, total), o);
      }
    }
  }

  /** A refresh of the loaded pages asks for every whole page size below what was loaded and what there is. */
  lemma LoadedSucceedsIff(run: RefreshRun, generation: U64, stoppedPageSize: U32, page: U64 -> PageAnswer, total: U64)
    requires generation == run.store.session.generation && Reports(page, total)
    ensures var size := Max(stoppedPageSize, 1);
            var end := Min(Max(Pages.NextOffset(run.store.stoppedPages, 0), size), total);
            RefreshLoaded(run, generation, stoppedPageSize, page).error.None? <==>
            forall o: U64 :: Asked(0, size, end, o) ==> Good(page(o))
  {
    var size := Max(stoppedPageSize, 1);
    PagesSucceedIff(run, generation, size, Max(Pages.NextOffset(run.store.stoppedPages, 0), size), 0, page, total);
  }

  /** The answers a full refresh asks for are good. */
  ghost predicate GoodPages(st: StoreState, stoppedPageSize: U32, page: U64 -> PageAnswer, total: U64) {
    var size := Max(stoppedPageSize, 1);
    forall o: U64 :: Asked(0, size, Min(Max(Pages.NextOffset(st.stoppedPages, 0), size), total), o) ==> Good(page(o))
  }

  /**
   A refresh succeeds exactly when both queries do, the pages it asks for are good and the live lists repeat no
   gid.
   */
  lemma RefreshSucceedsIff(st: StoreState, generation: U64, pageSize: U32, answers: EngineAnswers,
                           history: HistoryAnswer, total: U64)
    requires Reports(answers.page, total)
    ensures RefreshAll(st, generation, pageSize, answers, history).error.None? <==>
            && answers.stat.Success? && answers.live.Success? && generation == st.session.generation
            && GoodPages(st, pageSize, answers.page, total)
            && Distinct(Gids(answers.live.value.active + answers.live.value.waiting))
  {
    RefreshStopsEarly(st, generation, pageSize, answers, history);
    if answers.stat.Success? && answers.live.Success? && generation == st.session.generation {
      var counted := UpdateGlobalStat(st, generation, answers.stat.value).store;
      var start := RefreshRun(counted, {}, {}, None);
      LoadedSucceedsIff(start, generation, pageSize, answers.page, total);
      LoadedKeepsStat(start, generation, pageSize, answers.page);
      var paged := RefreshLoaded(start, generation, pageSize, answers.page);
      AcceptedIff(paged.store, Reconcile(generation, answers.live.value.active, answers.live.value.waiting));
    }
  }

  // ----- The tasks and rows a refresh leaves

  /** The store a successful refresh has before it reads the history. */
  lemma BeforeSeed(st: StoreState, generation: U64, pageSize: U32, answers: EngineAnswers, history: HistoryAnswer)
    returns (paged: StoreState, live: StoreState)
    requires st.Valid() && RefreshAll(st, generation, pageSize, answers, history).error.None?
    ensures paged.Valid() &&
            ReconcileLive(paged, generation, answers.live.value.active, answers.live.value.waiting).Applied?
    ensures live == ReconcileLive(paged, generation, answers.live.value.active, answers.live.value.waiting).store
    ensures live.Valid() && live.session == st.session && generation == st.session.generation
    ensures RefreshAll(st, generation, pageSize, answers, history).store == SeedInto(live, generation, history)
    ensures paged == RefreshLoaded(RefreshRun(UpdateGlobalStat(st, generation, answers.stat.value).store, {}, {}, None),
                                   generation, pageSize, answers.page).store
  {
    var counted := UpdateGlobalStat(st, generation, answers.stat.value).store;
    PagesPart(st, generation, pageSize, answers);
    paged := RefreshLoaded(RefreshRun(counted, {}, {}, None), generation, pageSize, answers.page).store;
    live := ReconcileLive(paged, generation, answers.live.value.active, answers.live.value.waiting).store;
    ReconciledValid(paged, answers.live.value.active, answers.live.value.waiting);
  }

  lemma ListedInOne(active: seq<TaskSnapshot>, waiting: seq<TaskSnapshot>, k: nat)
    requires k < |active + waiting|
    ensures (active + waiting)[k].gid in Gids(active) || (active + waiting)[k].gid in Gids(waiting)
  {
    if k < |active| {
      assert Gids(active)[k] == (active + waiting)[k].gid;
    } else {
      assert Gids(waiting)[k - |active|] == (active + waiting)[k].gid;
    }
  }

  lemma LiveShown(st: StoreState, generation: U64, active: seq<TaskSnapshot>, waiting: seq<TaskSnapshot>, k: nat)
    requires st.Valid() && ReconcileLive(st, generation, active, waiting).Applied? && k < |active + waiting|
    ensures var (after, s) := (ReconcileLive(st, generation, active, waiting).store, (active + waiting)[k]);
            && s.gid in after.tasks && ShowsTransfer(after.tasks[s.gid], s)
            && (s.gid in after.activeOrder || s.gid in after.waitingOrder)
  {
    ReconcileTakesSnapshots(st, generation, active, waiting, k);
    ReconcileIsExactDiff(st, generation, active, waiting);
    ListedInOne(active, waiting, k);
  }

  /** Every task of the fetched live lists shows what was fetched. */
  lemma RefreshShowsLive(st: StoreState, generation: U64, pageSize: U32, answers: EngineAnswers, history: HistoryAnswer,
                         k: nat)
    requires st.Valid() && RefreshAll(st, generation, pageSize, answers, history).error.None?
    requires k < |answers.live.value.active + answers.live.value.waiting|
    ensures var (after, s) := (RefreshAll(st, generation, pageSize, answers, history).store,
                               (answers.live.value.active + answers.live.value.waiting)[k]);
            s.gid in after.tasks && ShowsTransfer(after.tasks[s.gid], s)
  {
    var (active, waiting) := (answers.live.value.active, answers.live.value.waiting);
    var paged, live := BeforeSeed(st, generation, pageSize, answers, history);
    LiveShown(paged, generation, active, waiting, k);
    SeedLeavesListed(live, generation, history, (active + waiting)[k].gid);
  }

  /** Every record that is in none of the refreshed lists shows as a history row, the last one of its gid deciding. */
  lemma RefreshShowsHistory(st: StoreState, generation: U64, pageSize: U32, answers: EngineAnswers,
                            history: HistoryAnswer, k: nat)
    requires st.Valid() && RefreshAll(st, generation, pageSize, answers, history).error.None?
    requires history.records.Some?
    requires LastAdmitted(RefreshAll(st, generation, pageSize, answers, history).store, history.records.value, k)
    ensures var (after, r) := (RefreshAll(st, generation, pageSize, answers, history).store, history.records.value[k]);
            r.gid in after.tasks && ShowsRecord(after.tasks[r.gid], r) && r.gid in after.historyOrder
  {
    var paged, live := BeforeSeed(st, generation, pageSize, answers, history);
    var after := RefreshAll(st, generation, pageSize, answers, history).store;
    SeedIntoFacts(live, generation, history);
    assert forall r: HistoryRecord :: Admits(after, r) <==> Admits(live, r);
    assert LastAdmitted(live, history.records.value, k);
    SeedShowsRecord(live, generation, history, k);
  }

  /** A loaded prefix survives a full refresh, but for what is live now. */
  lemma RefreshKeepsStopped(st: StoreState, generation: U64, n: nat, stoppedPageSize: U32, engine: seq<TaskSnapshot>,
                            answers: EngineAnswers, history: HistoryAnswer)
    requires st.Valid() && RefreshAll(st, generation, stoppedPageSize, answers, history).error.None?
    requires |engine| <= U64_MAX && Distinct(Gids(engine)) && Answers(answers.page, engine, Max(stoppedPageSize, 1))
    requires OnGrid(st.stoppedPages, Gids(engine), n, Max(stoppedPageSize, 1))
    ensures var after := RefreshAll(st, generation, stoppedPageSize, answers, history).store;
            var m := Min(RoundUp(n, Max(stoppedPageSize, 1)), |engine|);
            n <= m && after.stoppedOrder == Without(Gids(engine)[..m], after.Live())
  {
    var (active, waiting) := (answers.live.value.active, answers.live.value.waiting);
    var paged, live := BeforeSeed(st, generation, stoppedPageSize, answers, history);
    RefreshKeepsPrefix(UpdateGlobalStat(st, generation, answers.stat.value).store, engine, n, stoppedPageSize,
                       answers.page);
    ReconcileIsExactDiff(paged, generation, active, waiting);
    SeedIntoFacts(live, generation, history);
  }
}
