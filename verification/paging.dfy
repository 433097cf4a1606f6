/** Loading stopped pages and refreshing the store from the engine. */
module Paging {
  import opened Prelude
  import opened Seqs
  import opened Tasks
  import opened Pages
  import opened StoreSpec
  import opened StoreProps
  import opened PageWalks

  datatype SyncErrorKind = Configuration | Disconnected | Tls | Authentication | Timeout | Protocol | Internal

  /** `cause` is the store error a message was made from. */
  datatype SyncError = SyncError(kind: SyncErrorKind, cause: Option<StoreError>, retryable: bool)

  function StoreFailure(error: StoreError): SyncError {
    SyncError(Internal, Some(error), false)
  }

  datatype StoppedPage = StoppedPage(offset: U64, total: U64, tasks: seq<TaskSnapshot>)
  datatype LiveSnapshot = LiveSnapshot(active: seq<TaskSnapshot>, waiting: seq<TaskSnapshot>)

  /** What the durable history answers; each query may fail without breaking the synchronization. */
  datatype HistoryAnswer = HistoryAnswer(records: Option<seq<HistoryRecord>>, categories: Option<seq<(Gid, string)>>)

  function SeedInto(st: StoreState, generation: U64, history: HistoryAnswer): StoreState {
    var seeded :=
      if history.records.None? then st
      else match SeedLocalHistory(st, generation, history.records.value)
        case Applied(after, _) => after
        case Rejected(_) => st;
    if history.categories.None? then seeded else SetCategories(seeded, history.categories.value)
  }

  lemma SeededFacts(st: StoreState, records: seq<HistoryRecord>)
    requires st.Valid()
    ensures var after := SeedLocalHistory(st, st.session.generation, records).store;
            && after.Valid() && after.session == st.session && after.stale == st.stale
            && after.activeOrder == st.activeOrder && after.waitingOrder == st.waitingOrder
            && after.stoppedOrder == st.stoppedOrder && after.stoppedPages == st.stoppedPages
            && after.stoppedTotal == st.stoppedTotal
  {
    SeededValid(st, records);
  }

  lemma SeedIntoFacts(st: StoreState, generation: U64, history: HistoryAnswer)
    requires st.Valid()
    ensures var after := SeedInto(st, generation, history);
            && after.Valid() && after.session == st.session && after.stale == st.stale
            && after.activeOrder == st.activeOrder && after.waitingOrder == st.waitingOrder
            && after.stoppedOrder == st.stoppedOrder && after.stoppedPages == st.stoppedPages
            && after.stoppedTotal == st.stoppedTotal
  {
    if history.records.Some? && generation == st.session.generation {
      SeededFacts(st, history.records.value);
    }
  }

  // ----- Load more

  /** An engine whose stopped list does not change while it is paged. */
  function EnginePage(engine: seq<TaskSnapshot>, offset: nat, count: nat): seq<TaskSnapshot> {
    engine[Min(offset, |engine|)..Min(offset + count, |engine|)]
  }

  /** One "load more" request: nothing to do, or the next page and a fresh history seed. */
  function LoadMore(st: StoreState, engine: seq<TaskSnapshot>, pageSize: U32,
                    history: HistoryAnswer): Result<StoreState, StoreError>
    requires |engine| <= U64_MAX
  {
    if !CanLoadMore(st) then Success(st)
    else
      var offset := NextOffset(st.stoppedPages, 0);
      match ApplyStoppedPage(st, st.session.generation, offset, Some(|engine|), EnginePage(engine, offset, pageSize))
      case Applied(after, _) => Success(SeedInto(after, st.session.generation, history))
      case Rejected(error) => Failure(error)
  }

  /** Every request of a user who keeps asking for more. */
  function LoadRepeatedly(st: StoreState, engine: seq<TaskSnapshot>, pageSize: U32,
                          answers: seq<HistoryAnswer>): Result<StoreState, StoreError>
    requires |engine| <= U64_MAX
  {
    if answers == [] then Success(st)
    else
      match LoadRepeatedly(st, engine, pageSize, answers[..|answers| - 1])
      case Success(now) => LoadMore(now, engine, pageSize, answers[|answers| - 1])
      case Failure(error) => Failure(error)
  }

  /**
   The store holds exactly the first `n` stopped results of the engine: its pages lie end to end, however many
   empty ones are among them.
   */
  ghost predicate HoldsPrefix(st: StoreState, engine: seq<TaskSnapshot>, n: nat) {
    n <= |engine| && Compact(st.stoppedPages, 0) && Length(st.stoppedPages) == n &&
    Flatten(st.stoppedPages) == Gids(engine)[..n]
  }

  lemma EnginePageGids(engine: seq<TaskSnapshot>, n: nat, count: nat)
    requires n <= |engine|
    ensures Gids(EnginePage(engine, n, count)) == Gids(engine)[n..Min(n + count, |engine|)]
    ensures Gids(engine)[..n] + Gids(EnginePage(engine, n, count)) == Gids(engine)[..Min(n + count, |engine|)]
  {
  }

  lemma EnginePageDistinct(engine: seq<TaskSnapshot>, offset: nat, count: nat)
    requires Distinct(Gids(engine))
    ensures Distinct(Gids(EnginePage(engine, offset, count)))
  {
    var (page, from) := (EnginePage(engine, offset, count), Min(offset, |engine|));
    assert forall i :: 0 <= i < |page| ==> Gids(page)[i] == Gids(engine)[from + i];
  }

  lemma PageAppliedFields(st: StoreState, offset: U64, total: U64, page: seq<TaskSnapshot>)
    requires st.Valid() && Distinct(Gids(page)) && offset + |page| <= total
    ensures var r := ApplyStoppedPage(st, st.session.generation, offset, Some(total), page);
            && r.Applied? && r.store.Valid() && r.store.session == st.session && r.store.stoppedTotal == Some(total)
            && r.store.stoppedPages == PagesWith(st.stoppedPages, offset, Some(total), Gids(page))
  {
    assert Kept(offset, Some(total), page) == page;
    PageAppliedValid(st, offset, Some(total), page);
  }

  /** A valid store that holds the first `n` results and knows how many there are. */
  ghost predicate LoadedTo(st: StoreState, engine: seq<TaskSnapshot>, n: nat)
    requires |engine| <= U64_MAX
  {
    st.Valid() && HoldsPrefix(st, engine, n) && st.stoppedTotal == Some(|engine|)
  }

  /** What a request that finds something to load does to any store. */
  lemma AppliedRequest(st: StoreState, engine: seq<TaskSnapshot>, offset: U64, pageSize: U32, history: HistoryAnswer)
    requires st.Valid() && |engine| <= U64_MAX && Distinct(Gids(engine))
    requires CanLoadMore(st) && offset == NextOffset(st.stoppedPages, 0) <= |engine|
    ensures var r := LoadMore(st, engine, pageSize, history);
            && r.Success? && r.value.Valid() && r.value.session == st.session && r.value.stoppedTotal == Some(|engine|)
            && r.value.stoppedPages
               == PagesWith(st.stoppedPages, offset, Some(|engine|),
                            Gids(engine)[offset..Min(offset + pageSize, |engine|)])
  {
    var page := EnginePage(engine, offset, pageSize);
    EnginePageGids(engine, offset, pageSize);
    EnginePageDistinct(engine, offset, pageSize);
    PageAppliedFields(st, offset, |engine|, page);
    SeedIntoFacts(ApplyStoppedPage(st, st.session.generation, offset, Some(|engine|), page).store,
                  st.session.generation, history);
  }

  lemma PrefixExtends(pages: seq<Pages.Page>, list: seq<Gid>, n: nat, pageSize: nat)
    requires Sorted(pages) && Compact(pages, 0) && Length(pages) == n <= |list| <= U64_MAX
    requires Flatten(pages) == list[..n]
    ensures NextOffset(pages, 0) == n
    ensures var m := Min(n + pageSize, |list|);
            var after := PagesWith(pages, n, Some(|list|), list[n..m]);
            Compact(after, 0) && Length(after) == m && Flatten(after) == list[..m]
  {
    CompactWalk(pages, 0);
    var gids := list[n..Min(n + pageSize, |list|)];
    assert list[..n] + gids == list[..Min(n + pageSize, |list|)];
    if n < |list| {
      CompactPagesWith(pages, gids, |list|);
    } else {
      var page := Pages.Page(n, gids);
      InsertCompact(pages, page);
      CompactBounds(Insert(pages, page), 0);
      BelowDropsEmpty(Insert(pages, page), |list|);
    }
  }

  /** One request loads exactly the next page. */
  lemma LoadMoreStep(st: StoreState, engine: seq<TaskSnapshot>, n: nat, pageSize: U32, history: HistoryAnswer)
    requires st.Valid() && |engine| <= U64_MAX && Distinct(Gids(engine))
    requires HoldsPrefix(st, engine, n) && CanLoadMore(st)
    ensures var r := LoadMore(st, engine, pageSize, history);
            && r.Success? && r.value.session == st.session
            && LoadedTo(r.value, engine, Min(n + pageSize, |engine|))
  {
    PrefixExtends(st.stoppedPages, Gids(engine), n, pageSize);
    AppliedRequest(st, engine, n, pageSize, history);
  }

  /** A store that knows the total may ask for more exactly while something is missing. */
  lemma MoreWhileMissing(st: StoreState, engine: seq<TaskSnapshot>, n: nat)
    requires |engine| <= U64_MAX && LoadedTo(st, engine, n)
    ensures CanLoadMore(st) <==> n < |engine|
  {
    CompactWalk(st.stoppedPages, 0);
  }

  lemma LoadMoreOnce(st: StoreState, engine: seq<TaskSnapshot>, n: nat, pageSize: U32, history: HistoryAnswer)
    requires |engine| <= U64_MAX && Distinct(Gids(engine)) && LoadedTo(st, engine, n)
    ensures var r := LoadMore(st, engine, pageSize, history);
            r.Success? && LoadedTo(r.value, engine, Min(n + pageSize, |engine|))
  {
    MoreWhileMissing(st, engine, n);
    if CanLoadMore(st) {
      LoadMoreStep(st, engine, n, pageSize, history);
    }
  }

  /** How far `k` requests of `step` results reach from `n` in a list of `cap`. */
  function Reach(n: nat, k: nat, step: nat, cap: nat): nat {
    if k == 0 then n else Min(Reach(n, k - 1, step, cap) + step, cap)
  }

  lemma {:induction false} ReachIsProduct(n: nat, k: nat, step: nat, cap: nat)
    requires n <= cap
    ensures Reach(n, k, step, cap) == Min(n + k * step, cap)
  {
    if k > 0 {
      ReachIsProduct(n, k - 1, step, cap);
      assert k * step == (k - 1) * step + step;
    }
  }

  lemma LoadRepeatedlySnoc(st: StoreState, engine: seq<TaskSnapshot>, pageSize: U32, answers: seq<HistoryAnswer>,
                           last: HistoryAnswer)
    requires |engine| <= U64_MAX && LoadRepeatedly(st, engine, pageSize, answers).Success?
    ensures LoadRepeatedly(st, engine, pageSize, answers + [last])
            == LoadMore(LoadRepeatedly(st, engine, pageSize, answers).value, engine, pageSize, last)
  {
    assert (answers + [last])[..|answers|] == answers;
  }

  lemma {:induction false} LoadedAfter(st: StoreState, engine: seq<TaskSnapshot>, n: nat, pageSize: U32,
                                       answers: seq<HistoryAnswer>)
    requires st.Valid() && |engine| <= U64_MAX && Distinct(Gids(engine)) && answers != []
    requires HoldsPrefix(st, engine, n) && CanLoadMore(st)
    ensures var r := LoadRepeatedly(st, engine, pageSize, answers);
            r.Success? && LoadedTo(r.value, engine, Reach(n, |answers|, pageSize, |engine|))
  {
    var (init, last) := (answers[..|answers| - 1], answers[|answers| - 1]);
    assert answers == init + [last];
    if init == [] {
      LoadRepeatedlySnoc(st, engine, pageSize, [], last);
      LoadMoreStep(st, engine, n, pageSize, last);
    } else {
      LoadedAfter(st, engine, n, pageSize, init);
      LoadRepeatedlySnoc(st, engine, pageSize, init, last);
      var before := LoadRepeatedly(st, engine, pageSize, init).value;
      LoadMoreOnce(before, engine, Reach(n, |init|, pageSize, |engine|), pageSize, last);
    }
  }

  lemma PrefixIsStopped(st: StoreState, engine: seq<TaskSnapshot>, n: nat)
    requires st.Valid() && HoldsPrefix(st, engine, n) && Distinct(Gids(engine))
    ensures st.stoppedOrder == Gids(engine)[..n]
  {
    DedupOfDistinct(Gids(engine)[..n]);
  }

  /**
   Against an unchanging engine list, `k` requests from a store that holds its first `n` results leave exactly the
   first `n + k * pageSize`, in the engine's order, and more can be loaded exactly while some are missing.
   */
  lemma LoadMoreConverges(st: StoreState, engine: seq<TaskSnapshot>, n: nat, pageSize: U32, answers: seq<HistoryAnswer>)
    requires st.Valid() && |engine| <= U64_MAX && Distinct(Gids(engine)) && answers != []
    requires HoldsPrefix(st, engine, n) && CanLoadMore(st)
    ensures var r := LoadRepeatedly(st, engine, pageSize, answers);
            var m := Min(n + |answers| * pageSize, |engine|);
            && r.Success? && r.value.stoppedOrder == Gids(engine)[..m]
            && NextOffset(r.value.stoppedPages, 0) == m
            && (CanLoadMore(r.value) <==> m < |engine|)
  {
    LoadedAfter(st, engine, n, pageSize, answers);
    ReachIsProduct(n, |answers|, pageSize, |engine|);
    var after := LoadRepeatedly(st, engine, pageSize, answers).value;
    var m := Min(n + |answers| * pageSize, |engine|);
    MoreWhileMissing(after, engine, m);
    PrefixIsStopped(after, engine, m);
    CompactWalk(after.stoppedPages, 0);
  }

  /** With a page size of zero nothing is ever loaded, although more is always promised. */
  lemma ZeroPageSizeStalls(st: StoreState, engine: seq<TaskSnapshot>, n: nat, answers: seq<HistoryAnswer>)
    requires st.Valid() && |engine| <= U64_MAX && Distinct(Gids(engine)) && answers != []
    requires HoldsPrefix(st, engine, n) && CanLoadMore(st) && n < |engine|
    ensures var r := LoadRepeatedly(st, engine, 0, answers);
            r.Success? && CanLoadMore(r.value) && r.value.stoppedOrder == st.stoppedOrder
  {
    LoadMoreConverges(st, engine, n, 0, answers);
    assert |answers| * 0 == 0;
    PrefixIsStopped(st, engine, n);
  }

  lemma AtLeastOnce(a: nat, b: nat)
    requires b >= 1
    ensures a * b >= a
  {
  }

  lemma ReachesEnd(n: nat, requests: nat, pageSize: nat, total: nat)
    requires n < total && requests >= total - n
    ensures Min(n + requests * pageSize, total) == total <==> pageSize >= 1
  {
    if pageSize >= 1 {
      AtLeastOnce(requests, pageSize);
    } else {
      assert requests * pageSize == 0;
    }
  }

  /** Enough requests finish the list exactly when pages may hold something. */
  lemma LoadMoreFinishesIff(st: StoreState, engine: seq<TaskSnapshot>, n: nat, pageSize: U32,
                            answers: seq<HistoryAnswer>)
    requires st.Valid() && |engine| <= U64_MAX && Distinct(Gids(engine))
    requires HoldsPrefix(st, engine, n) && CanLoadMore(st) && n < |engine| && |answers| >= |engine| - n
    ensures var r := LoadRepeatedly(st, engine, pageSize, answers);
            r.Success? && (!CanLoadMore(r.value) <==> pageSize >= 1)
  {
    LoadMoreConverges(st, engine, n, pageSize, answers);
    ReachesEnd(n, |answers|, pageSize, |engine|);
  }
}
