/** What refreshing the loaded pages does to the stopped list. */
module RefreshedPages {
  import opened Prelude
  import opened Seqs
  import opened Tasks
  import opened Pages
  import opened StoreSpec
  import opened StoreProps
  import opened PageWalks
  import opened Paging
  import opened Refresh

  // ----- Putting a page where one is already

  /** Storing a page again changes nothing. */
  lemma {:induction false} InsertAgain(pages: seq<Pages.Page>, page: Pages.Page)
    requires Sorted(pages) && page in pages
    ensures Insert(pages, page) == pages
  {
    var init, last := pages[..|pages| - 1], pages[|pages| - 1];
    assert pages == init + [last];
    InsertSnoc(init, last, page);
    if last != page {
      InsertAgain(init, page);
    }
  }

  /** The pages hold what they held before the offset of a page, and then that page. */
  ghost predicate Replaces(before: seq<Pages.Page>, after: seq<Pages.Page>, page: Pages.Page) {
    && Compact(after, 0) && Length(after) == page.offset + |page.gids|
    && page.offset <= |Flatten(before)| && Flatten(after) == Flatten(before)[..page.offset] + page.gids
  }

  lemma ReplacesLast(init: seq<Pages.Page>, last: Pages.Page, page: Pages.Page)
    requires Compact(init, 0) && Length(init) == last.offset == page.offset
    ensures Replaces(init + [last], init + [page], page)
  {
    CompactSnoc(init, 0, page);
    LengthSnoc(init, page);
    FlattenSnoc(init, page);
    FlattenSnoc(init, last);
    FlattenLength(init);
  }

  lemma ReplacesBefore(before: seq<Pages.Page>, after: seq<Pages.Page>, empty: Pages.Page, page: Pages.Page)
    requires Replaces(before, after, page) && empty.gids == []
    ensures Replaces(before + [empty], after + [empty], page)
  {
    CompactSnoc(after, 0, empty);
    LengthSnoc(after, empty);
    FlattenSnoc(after, empty);
    FlattenSnoc(before, empty);
  }

  /** Behind the page that ends compact pages nothing is held. */
  lemma NothingBehind(init: seq<Pages.Page>, last: Pages.Page, was: Pages.Page)
    requires Sorted(init + [last]) && Compact(init, 0) && (last.gids == [] || last.offset == Length(init))
    requires was in init + [last] && was != last && was.gids != []
    requires was.offset + |was.gids| == Length(init) + |last.gids|
    ensures was in init && Sorted(init) && last.gids == [] && was.offset + |was.gids| == Length(init)
  {
    assert Sorted(init) by {
      assert forall i :: 0 <= i < |init| ==> (init + [last])[i] == init[i];
    }
    CompactBounds(init, 0);
  }

  /** Replacing the last page that holds anything. */
  lemma {:induction false} ReplaceLast(pages: seq<Pages.Page>, was: Pages.Page, page: Pages.Page)
    requires Sorted(pages) && Compact(pages, 0) && was in pages && was.gids != [] && page.offset == was.offset
    requires was.offset + |was.gids| == Length(pages)
    ensures Replaces(pages, Insert(pages, page), page)
  {
    var init, last := pages[..|pages| - 1], pages[|pages| - 1];
    assert pages == init + [last];
    InsertSnoc(init, last, page);
    CompactSnoc(init, 0, last);
    LengthSnoc(init, last);
    if last == was {
      ReplacesLast(init, last, page);
    } else {
      NothingBehind(init, last, was);
      ReplaceLast(init, was, page);
      ReplacesBefore(init, Insert(init, page), last, page);
    }
  }

  // ----- A prefix in pages of the configured size

  predicate Multiple(offset: nat, pageSize: nat)
    requires pageSize >= 1
  {
    offset == 0 || (offset >= pageSize && Multiple(offset - pageSize, pageSize))
  }

  lemma {:induction false} NextMultiple(offset: nat, pageSize: nat)
    requires pageSize >= 1
    ensures Multiple(offset + pageSize, pageSize) <==> Multiple(offset, pageSize)
  {
  }

  /** The least positive multiple of the page size that reaches `n`. */
  function RoundUp(n: nat, pageSize: nat): (m: nat)
    requires pageSize >= 1
    ensures n <= m && Multiple(m, pageSize) && pageSize <= m && (n > pageSize ==> m < n + pageSize)
  {
    if n <= pageSize then pageSize else RoundUp(n - pageSize, pageSize) + pageSize
  }

  lemma {:induction false} RoundsToNext(n: nat, pageSize: nat, offset: nat)
    requires pageSize >= 1 && Multiple(offset, pageSize) && offset < n <= offset + pageSize
    ensures RoundUp(n, pageSize) == offset + pageSize
  {
    if offset > 0 {
      RoundsToNext(n - pageSize, pageSize, offset - pageSize);
    }
  }

  /** A page starts at `offset` if the prefix reaches beyond that multiple of the page size. */
  ghost predicate PagedAt(pages: seq<Pages.Page>, list: seq<Gid>, n: nat, pageSize: nat, offset: U64)
    requires pageSize >= 1 && n <= |list|
  {
    Multiple(offset, pageSize) && offset < n ==>
      Pages.Page(offset, list[offset..Min(offset + pageSize, n)]) in pages
  }

  /** The first `n` of a list, in pages at the multiples of a page size; only the last may be shorter. */
  ghost predicate OnGrid(pages: seq<Pages.Page>, list: seq<Gid>, n: nat, pageSize: nat)
    requires pageSize >= 1
  {
    && Sorted(pages) && n <= |list| && Compact(pages, 0) && Length(pages) == n && Flatten(pages) == list[..n]
    && forall o: U64 :: PagedAt(pages, list, n, pageSize, o)
  }

  /** The pages after one request to an engine that lists `list`. */
  function Paged(pages: seq<Pages.Page>, list: seq<Gid>, pageSize: nat, offset: U64): seq<Pages.Page>
    requires offset <= |list| <= U64_MAX
  {
    PagesWith(pages, offset, Some(|list|), list[offset..Min(offset + pageSize, |list|)])
  }

  /** One page of the refresh in front of the end of the prefix: nothing changes. */
  lemma FullPage(pages: seq<Pages.Page>, list: seq<Gid>, n: nat, pageSize: nat, offset: U64)
    requires pageSize >= 1 && OnGrid(pages, list, n, pageSize) && |list| <= U64_MAX
    requires Multiple(offset, pageSize) && offset + pageSize <= n
    ensures OnGrid(Paged(pages, list, pageSize, offset), list, n, pageSize)
  {
    assert PagedAt(pages, list, n, pageSize, offset);
    InsertAgain(pages, Pages.Page(offset, list[offset..offset + pageSize]));
    CompactBounds(pages, 0);
    BelowDropsEmpty(pages, |list|);
    BelowSorted(pages, |list|);
    forall o: U64 ensures PagedAt(Below(pages, |list|), list, n, pageSize, o) {
      assert PagedAt(pages, list, n, pageSize, o);
    }
  }

  lemma FilledUp(pages: seq<Pages.Page>, list: seq<Gid>, n: nat, offset: U64, m: nat)
    requires Sorted(pages) && Compact(pages, 0) && Length(pages) == n <= m <= |list| <= U64_MAX && |Flatten(pages)| == n
    requires offset < n && Pages.Page(offset, list[offset..n]) in pages
    ensures var page := Pages.Page(offset, list[offset..m]);
            Flatten(PagesWith(pages, offset, Some(|list|), page.gids)) == Flatten(pages)[..offset] + page.gids
  {
    var (was, page) := (Pages.Page(offset, list[offset..n]), Pages.Page(offset, list[offset..m]));
    ReplaceLast(pages, was, page);
    CompactBounds(Insert(pages, page), 0);
    BelowDropsEmpty(Insert(pages, page), |list|);
  }

  lemma SlicesJoin(list: seq<Gid>, n: nat, offset: nat, m: nat)
    requires offset <= n <= m <= |list|
    ensures list[..n][..offset] + list[offset..m] == list[..m]
  {
  }

  /** The last page, filled up from the list. */
  lemma LastPage(pages: seq<Pages.Page>, list: seq<Gid>, n: nat, pageSize: nat, offset: U64)
    requires Sorted(pages) && Compact(pages, 0) && Length(pages) == n <= |list| <= U64_MAX
    requires Flatten(pages) == list[..n]
    requires offset < n < offset + pageSize && Pages.Page(offset, list[offset..n]) in pages
    ensures Flatten(Paged(pages, list, pageSize, offset)) == list[..Min(offset + pageSize, |list|)]
  {
    var m := Min(offset + pageSize, |list|);
    SlicesJoin(list, n, offset, m);
    FilledUp(pages, list, n, offset, m);
  }

  /** The first page of an empty prefix. */
  lemma NothingYet(pages: seq<Pages.Page>, list: seq<Gid>)
    requires Length(pages) == 0
    ensures Flatten(pages) == list[..0]
  {
    FlattenLength(pages);
  }

  lemma FirstPage(pages: seq<Pages.Page>, list: seq<Gid>, pageSize: nat)
    requires Sorted(pages) && Compact(pages, 0) && Length(pages) == 0 && |list| <= U64_MAX
    ensures Flatten(Paged(pages, list, pageSize, 0)) == list[..Min(pageSize, |list|)]
  {
    NothingYet(pages, list);
    PrefixExtends(pages, list, Length(pages), pageSize);
  }

  // ----- The refresh

  /** The engine answers every page request from one list. */
  ghost predicate Answers(page: U64 -> PageAnswer, engine: seq<TaskSnapshot>, pageSize: nat)
    requires |engine| <= U64_MAX
  {
    forall o: U64 :: page(o) == Success(StoppedPage(o, |engine|, EnginePage(engine, o, pageSize)))
  }

  lemma PageAdded(run: RefreshRun, engine: seq<TaskSnapshot>, pageSize: nat, offset: U64, page: U64 -> PageAnswer)
    requires run.store.Valid() && |engine| <= U64_MAX && Distinct(Gids(engine)) && Answers(page, engine, pageSize)
    requires offset <= |engine|
    ensures var next := AddPage(run, run.store.session.generation, page(offset));
            && next.error.None? && next.store.Valid() && next.store.session == run.store.session
            && next.store.stoppedPages == Paged(run.store.stoppedPages, Gids(engine), pageSize, offset)
  {
    EnginePageGids(engine, offset, pageSize);
    EnginePageDistinct(engine, offset, pageSize);
    PageAppliedFields(run.store, offset, |engine|, EnginePage(engine, offset, pageSize));
  }

  /** The refresh went through and left the first `m` results. */
  predicate Refreshed(run: RefreshRun, list: seq<Gid>, m: nat) {
    run.error.None? && m <= |list| && run.store.stoppedOrder == list[..m]
  }

  /** The page request that ends a refresh. */
  lemma LastGridPage(pages: seq<Pages.Page>, list: seq<Gid>, n: nat, pageSize: nat, offset: U64)
    requires pageSize >= 1 && OnGrid(pages, list, n, pageSize) && |list| <= U64_MAX
    requires Multiple(offset, pageSize) && (offset < n || (offset == 0 && n == 0)) && n <= offset + pageSize
    ensures Flatten(Paged(pages, list, pageSize, offset)) == list[..Min(RoundUp(n, pageSize), |list|)]
  {
    if n == 0 {
      FirstPage(pages, list, pageSize);
    } else {
      RoundsToNext(n, pageSize, offset);
      if offset + pageSize == n {
        FullPage(pages, list, n, pageSize, offset);
      } else {
        assert PagedAt(pages, list, n, pageSize, offset);
        LastPage(pages, list, n, pageSize, offset);
      }
    }
  }

  lemma LastTurn(run: RefreshRun, generation: U64, pageSize: nat, through: nat, offset: U64, page: U64 -> PageAnswer)
    requires pageSize >= 1 && through <= U64_MAX && AddPage(run, generation, page(offset)).error.None?
    requires offset + pageSize >= through
    ensures RefreshPages(run, generation, pageSize, through, offset, page) == AddPage(run, generation, page(offset))
  {
  }

  lemma NextTurn(run: RefreshRun, generation: U64, pageSize: nat, through: nat, offset: U64, page: U64 -> PageAnswer)
    requires pageSize >= 1 && through <= U64_MAX && AddPage(run, generation, page(offset)).error.None?
    requires offset + pageSize < through && offset + pageSize < page(offset).value.total
    ensures RefreshPages(run, generation, pageSize, through, offset, page)
            == RefreshPages(AddPage(run, generation, page(offset)), generation, pageSize, through,
                            offset + pageSize, page)
  {
  }

  datatype Standing = Amid | Elsewhere

  /** Whether a refresh is still in front of the end of the prefix. */
  ghost function StandingOf(run: RefreshRun, generation: U64, engine: seq<TaskSnapshot>, n: nat, pageSize: nat,
                            offset: U64): Standing
    requires pageSize >= 1
  {
    if && run.store.Valid() && generation == run.store.session.generation && |engine| <= U64_MAX
       && Distinct(Gids(engine)) && OnGrid(run.store.stoppedPages, Gids(engine), n, pageSize)
       && Multiple(offset, pageSize) && (offset < n || (offset == 0 && n == 0))
    then Amid else Elsewhere
  }

  lemma GridTurn(run: RefreshRun, generation: U64, engine: seq<TaskSnapshot>, n: nat, pageSize: nat, offset: U64,
                 page: U64 -> PageAnswer)
    requires pageSize >= 1 && StandingOf(run, generation, engine, n, pageSize, offset) == Amid
    requires Answers(page, engine, pageSize)
    requires offset + pageSize < n
    ensures page(offset).Success? && page(offset).value.total == |engine|
    ensures AddPage(run, generation, page(offset)).error.None?
    ensures StandingOf(AddPage(run, generation, page(offset)), generation, engine, n, pageSize,
                       offset + pageSize) == Amid
  {
    PageAdded(run, engine, pageSize, offset, page);
    FullPage(run.store.stoppedPages, Gids(engine), n, pageSize, offset);
    NextMultiple(offset, pageSize);
  }

  lemma PrefixOrder(st: StoreState, list: seq<Gid>, m: nat)
    requires st.Valid() && m <= |list| && Flatten(st.stoppedPages) == list[..m] && Distinct(list)
    ensures st.stoppedOrder == list[..m]
  {
    DedupOfDistinct(list[..m]);
  }

  lemma GridEnd(run: RefreshRun, generation: U64, engine: seq<TaskSnapshot>, n: nat, pageSize: nat, offset: U64,
                page: U64 -> PageAnswer)
    requires pageSize >= 1 && StandingOf(run, generation, engine, n, pageSize, offset) == Amid
    requires Answers(page, engine, pageSize)
    requires n <= offset + pageSize
    ensures Refreshed(AddPage(run, generation, page(offset)), Gids(engine), Min(RoundUp(n, pageSize), |engine|))
  {
    PageAdded(run, engine, pageSize, offset, page);
    LastGridPage(run.store.stoppedPages, Gids(engine), n, pageSize, offset);
    PrefixOrder(AddPage(run, generation, page(offset)).store, Gids(engine), Min(RoundUp(n, pageSize), |engine|));
  }

  /** The rest of a refresh of a store that had loaded `n` results. */
  function RefreshFrom(run: RefreshRun, generation: U64, n: U64, pageSize: U64, offset: U64,
                       page: U64 -> PageAnswer): RefreshRun
    requires pageSize >= 1
  {
    RefreshPages(run, generation, pageSize, Max(n, pageSize), offset, page)
  }

  datatype Ending = Rounded | Otherwise

  /** Whether a refresh from here on leaves the rounded prefix. */
  ghost function EndingOf(run: RefreshRun, generation: U64, engine: seq<TaskSnapshot>, n: U64, pageSize: U64,
                          offset: U64, page: U64 -> PageAnswer): Ending
    requires pageSize >= 1
  {
    var (r, m) := (RefreshFrom(run, generation, n, pageSize, offset, page), Min(RoundUp(n, pageSize), |engine|));
    if Refreshed(r, Gids(engine), m) then Rounded else Otherwise
  }

  /** A turn that does not end the refresh leads to one that decides as much. */
  lemma GridStep(run: RefreshRun, generation: U64, engine: seq<TaskSnapshot>, n: U64, pageSize: U64, offset: U64,
                 page: U64 -> PageAnswer) returns (next: RefreshRun)
    requires pageSize >= 1 && StandingOf(run, generation, engine, n, pageSize, offset) == Amid
    requires Answers(page, engine, pageSize) && offset + pageSize < n
    ensures StandingOf(next, generation, engine, n, pageSize, offset + pageSize) == Amid
    ensures EndingOf(next, generation, engine, n, pageSize, offset + pageSize, page) == Rounded ==>
              EndingOf(run, generation, engine, n, pageSize, offset, page) == Rounded
  {
    next := AddPage(run, generation, page(offset));
    GridTurn(run, generation, engine, n, pageSize, offset, page);
    NextTurn(run, generation, pageSize, Max(n, pageSize), offset, page);
  }

  /** The turn that ends the refresh. */
  lemma GridFinish(run: RefreshRun, generation: U64, engine: seq<TaskSnapshot>, n: U64, pageSize: U64, offset: U64,
                   page: U64 -> PageAnswer)
    requires pageSize >= 1 && StandingOf(run, generation, engine, n, pageSize, offset) == Amid
    requires Answers(page, engine, pageSize) && n <= offset + pageSize
    ensures EndingOf(run, generation, engine, n, pageSize, offset, page) == Rounded
  {
    GridEnd(run, generation, engine, n, pageSize, offset, page);
    LastTurn(run, generation, pageSize, Max(n, pageSize), offset, page);
  }

  /** Every refresh that stands at this offset leaves the rounded prefix. */
  ghost predicate AllRound(generation: U64, engine: seq<TaskSnapshot>, n: U64, pageSize: U64, offset: U64,
                           page: U64 -> PageAnswer)
    requires pageSize >= 1
  {
    forall run: RefreshRun :: StandingOf(run, generation, engine, n, pageSize, offset) == Amid ==>
                                EndingOf(run, generation, engine, n, pageSize, offset, page) == Rounded
  }

  lemma AllRoundBefore(generation: U64, engine: seq<TaskSnapshot>, n: U64, pageSize: U64, offset: U64,
                       page: U64 -> PageAnswer)
    requires pageSize >= 1 && |engine| <= U64_MAX && Answers(page, engine, pageSize) && offset + pageSize < n
    requires AllRound(generation, engine, n, pageSize, offset + pageSize, page)
    ensures AllRound(generation, engine, n, pageSize, offset, page)
  {
    forall run: RefreshRun | StandingOf(run, generation, engine, n, pageSize, offset) == Amid
      ensures EndingOf(run, generation, engine, n, pageSize, offset, page) == Rounded
    {
      var next := GridStep(run, generation, engine, n, pageSize, offset, page);
    }
  }

  lemma AllRoundAtEnd(generation: U64, engine: seq<TaskSnapshot>, n: U64, pageSize: U64, offset: U64,
                      page: U64 -> PageAnswer)
    requires pageSize >= 1 && |engine| <= U64_MAX && Answers(page, engine, pageSize) && n <= offset + pageSize
    ensures AllRound(generation, engine, n, pageSize, offset, page)
  {
    forall run: RefreshRun | StandingOf(run, generation, engine, n, pageSize, offset) == Amid
      ensures EndingOf(run, generation, engine, n, pageSize, offset, page) == Rounded
    {
      GridFinish(run, generation, engine, n, pageSize, offset, page);
    }
  }

  /** What holds in the last step and carries over to the step before holds from the start. */
  lemma {:induction false} Descend(p: nat -> bool, step: nat, n: nat, from: nat)
    requires step >= 1
    requires forall o: nat :: n <= o + step ==> p(o)
    requires forall o: nat :: o + step < n && p(o + step) ==> p(o)
    ensures p(from)
    decreases n - from
  {
    if from + step < n {
      Descend(p, step, n, from + step);
    }
  }

  lemma GridRefresh(generation: U64, engine: seq<TaskSnapshot>, n: U64, pageSize: U64, page: U64 -> PageAnswer)
    requires pageSize >= 1 && |engine| <= U64_MAX && Answers(page, engine, pageSize)
    ensures AllRound(generation, engine, n, pageSize, 0, page)
  {
    var p := (o: nat) => o <= U64_MAX ==> AllRound(generation, engine, n, pageSize, o, page);
    forall o: nat | n <= o + pageSize ensures p(o) {
      if o <= U64_MAX {
        AllRoundAtEnd(generation, engine, n, pageSize, o, page);
      }
    }
    forall o: nat | o + pageSize < n && p(o + pageSize) ensures p(o) {
      AllRoundBefore(generation, engine, n, pageSize, o, page);
    }
    Descend(p, pageSize, n, 0);
    assert p(0);
  }

  lemma LoadedFromStart(run: RefreshRun, generation: U64, n: U64, stoppedPageSize: U32, page: U64 -> PageAnswer)
    requires NextOffset(run.store.stoppedPages, 0) == n
    ensures RefreshLoaded(run, generation, stoppedPageSize, page)
            == RefreshFrom(run, generation, n, Max(stoppedPageSize, 1), 0, page)
  {
  }

  /**
   Refreshing a prefix that was loaded in pages of the configured size keeps all of it, in the engine's order, and
   fills its last page up.
   */
  lemma RefreshKeepsPrefix(st: StoreState, engine: seq<TaskSnapshot>, n: nat, stoppedPageSize: U32,
                           page: U64 -> PageAnswer)
    requires st.Valid() && |engine| <= U64_MAX && Distinct(Gids(engine))
    requires Answers(page, engine, Max(stoppedPageSize, 1))
    requires OnGrid(st.stoppedPages, Gids(engine), n, Max(stoppedPageSize, 1))
    ensures var r := RefreshLoaded(RefreshRun(st, {}, {}, None), st.session.generation, stoppedPageSize, page);
            var m := Min(RoundUp(n, Max(stoppedPageSize, 1)), |engine|);
            r.error.None? && n <= m && r.store.stoppedOrder == Gids(engine)[..m]
  {
    var size := Max(stoppedPageSize, 1);
    var start := RefreshRun(st, {}, {}, None);
    CompactWalk(st.stoppedPages, 0);
    LoadedFromStart(start, st.session.generation, n, stoppedPageSize, page);
    GridRefresh(st.session.generation, engine, n, size, page);
    assert StandingOf(start, st.session.generation, engine, n, size, 0) == Amid;
  }

  lemma {:induction false} MultiplesApart(a: nat, b: nat, pageSize: nat)
    requires pageSize >= 1 && Multiple(a, pageSize) && Multiple(b, pageSize) && a < b
    ensures a + pageSize <= b
  {
    if a > 0 {
      MultiplesApart(a - pageSize, b - pageSize, pageSize);
    }
  }

  lemma PagedMembers(pages: seq<Pages.Page>, list: seq<Gid>, pageSize: nat, n: nat)
    requires Sorted(pages) && n < |list| <= U64_MAX
    ensures Sorted(Paged(pages, list, pageSize, n))
    ensures Pages.Page(n, list[n..Min(n + pageSize, |list|)]) in Paged(pages, list, pageSize, n)
    ensures forall p :: p in pages && p.offset < n ==> p in Paged(pages, list, pageSize, n)
  {
    var page := Pages.Page(n, list[n..Min(n + pageSize, |list|)]);
    InsertIsMapUpdate(pages, page);
    BelowSorted(Insert(pages, page), |list|);
  }

  lemma PagedAgain(pages: seq<Pages.Page>, after: seq<Pages.Page>, list: seq<Gid>, n: nat, m: nat, pageSize: nat,
                   o: U64)
    requires pageSize >= 1 && Multiple(n, pageSize) && n < m <= |list| && m == Min(n + pageSize, |list|) && n <= U64_MAX
    requires PagedAt(pages, list, n, pageSize, o)
    requires Pages.Page(n, list[n..m]) in after && forall p :: p in pages && p.offset < n ==> p in after
    ensures PagedAt(after, list, m, pageSize, o)
  {
    if Multiple(o, pageSize) && o < n {
      MultiplesApart(o, n, pageSize);
    } else if Multiple(o, pageSize) && n < o {
      MultiplesApart(n, o, pageSize);
    }
  }

  /** Loading the next page behind whole pages stays on the grid. */
  lemma GridExtends(pages: seq<Pages.Page>, list: seq<Gid>, n: nat, pageSize: nat)
    requires pageSize >= 1 && OnGrid(pages, list, n, pageSize) && Multiple(n, pageSize) && n < |list| <= U64_MAX
    ensures OnGrid(Paged(pages, list, pageSize, n), list, Min(n + pageSize, |list|), pageSize)
  {
    var (after, m) := (Paged(pages, list, pageSize, n), Min(n + pageSize, |list|));
    PrefixExtends(pages, list, n, pageSize);
    PagedMembers(pages, list, pageSize, n);
    forall o: U64 ensures PagedAt(after, list, m, pageSize, o) {
      PagedAgain(pages, after, list, n, m, pageSize, o);
    }
  }

  /** So what load-more leaves is what a refresh keeps. */
  lemma LoadMoreStaysOnGrid(st: StoreState, engine: seq<TaskSnapshot>, n: nat, pageSize: U32, history: HistoryAnswer)
    requires st.Valid() && |engine| <= U64_MAX && Distinct(Gids(engine)) && pageSize >= 1 && CanLoadMore(st)
    requires OnGrid(st.stoppedPages, Gids(engine), n, pageSize) && Multiple(n, pageSize) && n < |engine|
    ensures var r := LoadMore(st, engine, pageSize, history);
            && r.Success? && r.value.Valid()
            && r.value.stoppedPages == Paged(st.stoppedPages, Gids(engine), pageSize, n)
            && OnGrid(Paged(st.stoppedPages, Gids(engine), pageSize, n), Gids(engine), Min(n + pageSize, |engine|),
                      pageSize)
  {
    GridExtends(st.stoppedPages, Gids(engine), n, pageSize);
    CompactWalk(st.stoppedPages, 0);
    AppliedRequest(st, engine, n, pageSize, history);
  }

  // ----- Pages off the grid

  /** The engine answers with the offset it was asked for. */
  ghost predicate Echoes(page: U64 -> PageAnswer) {
    forall o: U64 :: page(o).Success? ==> page(o).value.offset == o
  }

  lemma KeptPage(pages: seq<Pages.Page>, offset: U64, total: U64, gids: seq<Gid>, p: Pages.Page)
    requires Sorted(pages) && p.offset != offset && p.offset < total
    ensures p in PagesWith(pages, offset, Some(total), gids) <==> p in pages
  {
    InsertIsMapUpdate(pages, Pages.Page(offset, gids));
  }

  lemma OffGridPage(run: RefreshRun, generation: U64, answer: PageAnswer, pageSize: nat, p: Pages.Page)
    requires run.store.Valid() && pageSize >= 1 && !Multiple(p.offset, pageSize)
    requires answer.Success? ==> Multiple(answer.value.offset, pageSize) && p.offset < answer.value.total
    ensures AddPage(run, generation, answer).store.Valid()
    ensures p in AddPage(run, generation, answer).store.stoppedPages <==> p in run.store.stoppedPages
  {
    if answer.Success? {
      var a := answer.value;
      if ApplyStoppedPage(run.store, generation, a.offset, Some(a.total), a.tasks).Applied? {
        PageValid(run.store, a.offset, Some(a.total), a.tasks);
        KeptPage(run.store.stoppedPages, a.offset, a.total, Gids(Kept(a.offset, Some(a.total), a.tasks)), p);
      }
    }
  }

  /** A page that starts between the offsets a refresh asks for is neither refreshed nor dropped below the total. */
  lemma {:induction false} OffGridPageStays(run: RefreshRun, generation: U64, pageSize: nat, through: nat, offset: U64,
                                            page: U64 -> PageAnswer, p: Pages.Page)
    requires run.store.Valid() && pageSize >= 1 && through <= U64_MAX && Multiple(offset, pageSize) && Echoes(page)
    requires !Multiple(p.offset, pageSize)
    requires forall o: U64 :: page(o).Success? ==> p.offset < page(o).value.total
    ensures p in RefreshPages(run, generation, pageSize, through, offset, page).store.stoppedPages
            <==> p in run.store.stoppedPages
    decreases if offset < through then through - offset else 0
  {
    var next := AddPage(run, generation, page(offset));
    OffGridPage(run, generation, page(offset), pageSize, p);
    var offset' := SatAdd(offset, pageSize);
    if next.error.None? && offset' < through && offset' < page(offset).value.total {
      NextMultiple(offset, pageSize);
      OffGridPageStays(next, generation, pageSize, through, offset', page, p);
    }
  }
}
