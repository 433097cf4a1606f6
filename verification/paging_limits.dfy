/** Runs in which stopped pages come to overlap, and what load-more then skips. */
module PagingLimits {
  import opened Prelude
  import opened Seqs
  import opened Tasks
  import opened Pages
  import opened StoreSpec
  import opened StoreProps
  import opened PageWalks
  import opened Paging

  /** A valid store of this session with these pages. */
  ghost predicate Holds(st: StoreState, session: EngineSession, pages: seq<Pages.Page>) {
    st.Valid() && st.session == session && st.stoppedPages == pages
  }

  // ----- Small page lists

  lemma FlattenTwo(p: Pages.Page, q: Pages.Page)
    ensures Flatten([p, q]) == p.gids + q.gids
  {
    FlattenSnoc([p], q);
    FlattenSnoc([], p);
    assert [] + [p] == [p] && [p] + [q] == [p, q];
  }

  lemma FlattenThree(p: Pages.Page, q: Pages.Page, r: Pages.Page)
    ensures Flatten([p, q, r]) == p.gids + q.gids + r.gids
  {
    FlattenTwo(p, q);
    FlattenSnoc([p, q], r);
    assert [p, q] + [r] == [p, q, r];
  }

  lemma FlattenFour(p: Pages.Page, q: Pages.Page, r: Pages.Page, s: Pages.Page)
    ensures Flatten([p, q, r, s]) == p.gids + q.gids + r.gids + s.gids
  {
    FlattenThree(p, q, r);
    FlattenSnoc([p, q, r], s);
    assert [p, q, r] + [s] == [p, q, r, s];
  }

  /** Walking on from pages that lie end to end or overlap. */
  lemma WalkCons(p: Pages.Page, rest: seq<Pages.Page>, expected: U64)
    requires p.offset <= expected && expected + |p.gids| <= U64_MAX
    ensures NextOffset([p] + rest, expected) == NextOffset(rest, expected + |p.gids|)
  {
    assert ([p] + rest)[1..] == rest;
  }

  lemma WalkThree(p: Pages.Page, q: Pages.Page, r: Pages.Page, expected: U64)
    requires p.offset <= expected && q.offset <= expected + |p.gids| && r.offset <= expected + |p.gids| + |q.gids|
    requires expected + |p.gids| + |q.gids| + |r.gids| <= U64_MAX
    ensures NextOffset([p, q, r], expected) == expected + |p.gids| + |q.gids| + |r.gids|
  {
    WalkCons(p, [q, r], expected);
    WalkCons(q, [r], expected + |p.gids|);
    WalkCons(r, [], expected + |p.gids| + |q.gids|);
    assert [p] + [q, r] == [p, q, r] && [q] + [r] == [q, r] && [r] + [] == [r];
  }

  /** Appending a page behind all others, and putting one between two. */
  lemma InsertLast(pages: seq<Pages.Page>, page: Pages.Page, total: U64)
    requires forall p :: p in pages ==> p.offset < page.offset
    requires page.offset < total
    ensures PagesWith(pages, page.offset, Some(total), page.gids) == pages + [page]
  {
    assert Insert(pages, page) == pages + [page] by {
      if pages != [] {
        assert pages[|pages| - 1] in pages;
      }
    }
    BelowAll(pages + [page], total);
  }

  lemma OnePage(p: Pages.Page, total: U64)
    requires p.offset < total
    ensures PagesWith([], p.offset, Some(total), p.gids) == [p]
  {
    InsertLast([], p, total);
    assert [] + [p] == [p];
  }

  lemma SecondPage(p: Pages.Page, q: Pages.Page, total: U64)
    requires p.offset < q.offset < total
    ensures PagesWith([p], q.offset, Some(total), q.gids) == [p, q]
  {
    InsertLast([p], q, total);
    assert [p] + [q] == [p, q];
  }

  lemma InsertBetween(p: Pages.Page, q: Pages.Page, r: Pages.Page, total: U64)
    requires p.offset < q.offset < r.offset < total
    ensures PagesWith([p, r], q.offset, Some(total), q.gids) == [p, q, r]
  {
    assert [p, r][..1] == [p];
    assert Insert([p], q) == [p, q];
    assert Insert([p, r], q) == [p, q] + [r] == [p, q, r];
    BelowAll([p, q, r], total);
  }

  // ----- Runs of pages

  /** One more page at the end of a run. */
  lemma PageStep(st: StoreState, ops: seq<StoreOp>, session: EngineSession, pages: seq<Pages.Page>,
                 offset: U64, total: U64, page: seq<TaskSnapshot>)
    requires ops != [] && ops[|ops| - 1] == StoreOp.Page(session.generation, offset, Some(total), page)
    requires Holds(Run(st, ops[..|ops| - 1]), session, pages) && Distinct(Gids(page)) && offset + |page| <= total
    ensures Holds(Run(st, ops), session, PagesWith(pages, offset, Some(total), Gids(page)))
    ensures Run(st, ops).stoppedTotal == Some(total)
  {
    PageAppliedFields(Run(st, ops[..|ops| - 1]), offset, total, page);
  }

  /** One live list at the end of a run. */
  lemma LiveTurn(st: StoreState, ops: seq<StoreOp>, session: EngineSession, pages: seq<Pages.Page>,
                 active: seq<TaskSnapshot>)
    requires ops != [] && ops[|ops| - 1] == Reconcile(session.generation, active, [])
    requires Holds(Run(st, ops[..|ops| - 1]), session, pages) && Distinct(Gids(active))
    ensures Holds(Run(st, ops), session, Purge(pages, Elems(Gids(active))))
    ensures Run(st, ops).stoppedTotal == Run(st, ops[..|ops| - 1]).stoppedTotal
  {
    assert active + [] == active;
    ReconciledValid(Run(st, ops[..|ops| - 1]), active, []);
  }

  /** Two pages loaded into a store without pages. */
  ghost predicate LoadsTwo(ops: seq<StoreOp>, generation: U64, a: seq<TaskSnapshot>, b: seq<TaskSnapshot>,
                           offset: U64, total: U64) {
    && |ops| == 2 && ops[0] == StoreOp.Page(generation, 0, Some(total), a)
    && ops[1] == StoreOp.Page(generation, offset, Some(total), b)
  }

  lemma FirstLoaded(st: StoreState, session: EngineSession, ops: seq<StoreOp>, a: seq<TaskSnapshot>, total: U64)
    requires Holds(st, session, []) && |ops| == 1 && ops[0] == StoreOp.Page(session.generation, 0, Some(total), a)
    requires 0 < total && |a| <= total && Distinct(Gids(a))
    ensures Holds(Run(st, ops), session, [Pages.Page(0, Gids(a))])
  {
    assert ops[..0] == [];
    OnePage(Pages.Page(0, Gids(a)), total);
    PageStep(st, ops, session, [], 0, total, a);
  }

  lemma TwoPages(st: StoreState, session: EngineSession, ops: seq<StoreOp>, a: seq<TaskSnapshot>, b: seq<TaskSnapshot>,
                 offset: U64, total: U64)
    requires Holds(st, session, []) && LoadsTwo(ops, session.generation, a, b, offset, total)
    requires 0 < offset < total && |a| <= total && offset + |b| <= total && Distinct(Gids(a)) && Distinct(Gids(b))
    ensures Holds(Run(st, ops), session, [Pages.Page(0, Gids(a)), Pages.Page(offset, Gids(b))])
    ensures Run(st, ops).stoppedTotal == Some(total)
  {
    var (p, q) := (Pages.Page(0, Gids(a)), Pages.Page(offset, Gids(b)));
    FirstLoaded(st, session, ops[..1], a, total);
    SecondPage(p, q, total);
    PageStep(st, ops, session, [p], offset, total, b);
  }

  /** A store can hold the overlapping pages of `OverlapCounterexample`; offsets 4 and 5 are then passed over. */
  lemma OverlapIsReachable(session: EngineSession, lower: string -> string, ops: seq<StoreOp>,
                           a: seq<TaskSnapshot>, b: seq<TaskSnapshot>)
    requires Gids(a) == [10, 11, 12] && Gids(b) == [11, 12, 13]
    requires LoadsTwo(ops, session.generation, a, b, 1, 8)
    ensures var st := Run(NewStore(session, lower), ops);
            && st.stoppedPages == [Pages.Page(0, [10, 11, 12]), Pages.Page(1, [11, 12, 13])]
            && CanLoadMore(st) && NextOffset(st.stoppedPages, 0) == 6 && !Covered(st.stoppedPages, 4)
  {
    TwoPages(NewStore(session, lower), session, ops, a, b, 1, 8);
    OverlapCounterexample();
  }

  // ----- A page that becomes shorter

  /** Two pages of three are loaded, then a live list names some of their gids. */
  ghost predicate Shortens(ops: seq<StoreOp>, generation: U64, a: seq<TaskSnapshot>, b: seq<TaskSnapshot>,
                           live: seq<TaskSnapshot>) {
    && |ops| == 3 && LoadsTwo(ops[..2], generation, a, b, 3, 10) && ops[2] == Reconcile(generation, live, [])
    && Gids(a) == [10, 11, 12] && Gids(b) == [13, 14, 15]
  }

  lemma ShortenedStore(st: StoreState, session: EngineSession, ops: seq<StoreOp>,
                       a: seq<TaskSnapshot>, b: seq<TaskSnapshot>, live: seq<TaskSnapshot>)
    requires Holds(st, session, []) && Shortens(ops, session.generation, a, b, live) && Distinct(Gids(live))
    ensures Holds(Run(st, ops), session,
                  Purge([Pages.Page(0, Gids(a)), Pages.Page(3, Gids(b))], Elems(Gids(live))))
    ensures Run(st, ops).stoppedTotal == Some(10)
  {
    TwoPages(st, session, ops[..2], a, b, 3, 10);
    LiveTurn(st, ops, session, [Pages.Page(0, Gids(a)), Pages.Page(3, Gids(b))], live);
  }

  /** The first page has lost its last gid. */
  ghost predicate Shortened(pages: seq<Pages.Page>) {
    && |pages| == 2 && pages[0] == Pages.Page(0, [10, 11]) && pages[1] == Pages.Page(3, [13, 14, 15])
  }

  /** What filling the gap makes of them. */
  ghost predicate Overlapped(pages: seq<Pages.Page>) {
    && |pages| == 3 && pages[0] == Pages.Page(0, [10, 11]) && pages[1] == Pages.Page(2, [13, 14, 15])
    && pages[2] == Pages.Page(3, [13, 14, 15])
  }

  /** The engine's stopped list without that gid. */
  ghost predicate Remaining(list: seq<Gid>) {
    list == [10, 11, 13, 14, 15, 16, 17, 18, 19]
  }

  lemma RemainingFacts(list: seq<Gid>)
    requires Remaining(list)
    ensures |list| == 9 && Distinct(list) && list[2..5] == [13, 14, 15] && list[8..9] == [19]
  {
  }

  lemma ShortenedPages(pages: seq<Pages.Page>, dropped: set<Gid>)
    requires |pages| == 2 && dropped == {12}
    requires pages[0] == Pages.Page(0, [10, 11, 12]) && pages[1] == Pages.Page(3, [13, 14, 15])
    ensures Shortened(Purge(pages, dropped))
  {
    var (first, rest) := (pages[0].gids, pages[1].gids);
    WithoutSnoc(first[..2], 12, dropped);
    assert first[..2] + [12] == first;
    WithoutNothing(first[..2], dropped);
    WithoutNothing(rest, dropped);
  }

  lemma GapPages(pages: seq<Pages.Page>, total: U64, gids: seq<Gid>)
    requires Shortened(pages) && total == 9 && gids == [13, 14, 15]
    ensures NextOffset(pages, 0) == 2 && Overlapped(PagesWith(pages, 2, Some(total), gids))
  {
    WalkCons(pages[0], pages[1..], 0);
    assert pages == [pages[0]] + pages[1..] == [pages[0], pages[1]];
    InsertBetween(pages[0], Pages.Page(2, gids), pages[1], total);
  }

  /** The first request fills the gap with a page that overlaps the one behind it. */
  lemma GapRequest(st: StoreState, engine: seq<TaskSnapshot>, list: seq<Gid>, history: HistoryAnswer)
    requires st.Valid() && Shortened(st.stoppedPages) && st.stoppedTotal == Some(10)
    requires list == Gids(engine) && Remaining(list)
    ensures var r := LoadMore(st, engine, 3, history);
            r.Success? && r.value.Valid() && r.value.stoppedTotal == Some(9) && Overlapped(r.value.stoppedPages)
  {
    RemainingFacts(list);
    GapPages(st.stoppedPages, 9, list[2..5]);
    AppliedRequest(st, engine, 2, 3, history);
  }

  lemma {:induction false} DedupRepeats(s: seq<Gid>, again: seq<Gid>)
    requires forall g :: g in again ==> g in s
    ensures Dedup(s + again) == Dedup(s)
  {
    if again == [] {
      assert s + again == s;
    } else {
      var init, last := again[..|again| - 1], again[|again| - 1];
      DedupRepeats(s, init);
      assert s + again == s + init + [last];
      DedupSnoc(s + init, last);
    }
  }

  /** The three gids that both overlapping pages hold count once. */
  lemma RepeatedGids(a: seq<Gid>, b: seq<Gid>, c: seq<Gid>)
    requires a == [10, 11] && b == [13, 14, 15] && c == [19]
    ensures Dedup(a + b + b) == [10, 11, 13, 14, 15] && Dedup(a + b + b + c) == [10, 11, 13, 14, 15, 19]
  {
    var s := a + b;
    assert Distinct(s);
    DedupOfDistinct(s);
    DedupRepeats(s, b);
    DedupSnoc(s + b, 19);
  }

  lemma OverlappedPages(pages: seq<Pages.Page>)
    requires Overlapped(pages)
    ensures NextOffset(pages, 0) == 8 && Dedup(Flatten(pages)) == [10, 11, 13, 14, 15]
  {
    assert pages == [pages[0], pages[1], pages[2]];
    WalkThree(pages[0], pages[1], pages[2], 0);
    FlattenThree(pages[0], pages[1], pages[2]);
    RepeatedGids([10, 11], [13, 14, 15], [19]);
  }

  lemma LastPages(pages: seq<Pages.Page>, gids: seq<Gid>, total: U64)
    requires Overlapped(pages) && gids == [19] && total == 9
    ensures var all := PagesWith(pages, 8, Some(total), gids);
            NextOffset(all, 0) == 9 && Dedup(Flatten(all)) == [10, 11, 13, 14, 15, 19]
  {
    var (p, q, r, s) := (pages[0], pages[1], pages[2], Pages.Page(8, gids));
    InsertLast(pages, s, total);
    assert pages + [s] == [p, q, r, s] == [p] + [q, r, s] && [q] + [r, s] == [q, r, s];
    WalkCons(p, [q, r, s], 0);
    WalkThree(q, r, s, 2);
    FlattenFour(p, q, r, s);
    RepeatedGids([10, 11], [13, 14, 15], gids);
  }

  /** The second request starts behind the overlap and ends the list. */
  lemma LastRequest(st: StoreState, engine: seq<TaskSnapshot>, list: seq<Gid>, history: HistoryAnswer)
    requires st.Valid() && st.stoppedTotal == Some(9) && Overlapped(st.stoppedPages)
    requires list == Gids(engine) && Remaining(list)
    ensures CanLoadMore(st) && st.stoppedOrder == [10, 11, 13, 14, 15]
    ensures var r := LoadMore(st, engine, 3, history);
            r.Success? && !CanLoadMore(r.value) && r.value.stoppedOrder == [10, 11, 13, 14, 15, 19]
  {
    RemainingFacts(list);
    OverlappedPages(st.stoppedPages);
    LastPages(st.stoppedPages, list[8..9], 9);
    AppliedRequest(st, engine, 8, 3, history);
  }

  lemma OneGid(s: TaskSnapshot)
    ensures Distinct(Gids([s])) && Elems(Gids([s])) == {s.gid}
  {
    assert Gids([s]) == [s.gid];
  }

  /**
   A live list takes the last gid of the first page. Load-more then fetches two more pages from the engine list
   that results and reports that nothing is left, although the results 16, 17 and 18 were never loaded.
   */
  lemma ShortenedPageSkipsResults(session: EngineSession, lower: string -> string, ops: seq<StoreOp>,
                                  a: seq<TaskSnapshot>, b: seq<TaskSnapshot>, live: TaskSnapshot,
                                  engine: seq<TaskSnapshot>, first: HistoryAnswer, second: HistoryAnswer)
    requires Shortens(ops, session.generation, a, b, [live]) && live.gid == 12 && Remaining(Gids(engine))
    ensures var one := LoadMore(Run(NewStore(session, lower), ops), engine, 3, first);
            && one.Success? && CanLoadMore(one.value) && one.value.stoppedOrder == [10, 11, 13, 14, 15]
            && var two := LoadMore(one.value, engine, 3, second);
            && two.Success? && !CanLoadMore(two.value) && two.value.stoppedOrder == [10, 11, 13, 14, 15, 19]
  {
    OneGid(live);
    ShortenedStore(NewStore(session, lower), session, ops, a, b, [live]);
    ShortenedPages([Pages.Page(0, Gids(a)), Pages.Page(3, Gids(b))], Elems(Gids([live])));
    GapRequest(Run(NewStore(session, lower), ops), engine, Gids(engine), first);
    LastRequest(LoadMore(Run(NewStore(session, lower), ops), engine, 3, first).value, engine, Gids(engine), second);
  }

  // ----- A page that is emptied

  /** The engine's stopped list without the whole first page. */
  ghost predicate Shifted(list: seq<Gid>) {
    list == [13, 14, 15, 16, 17, 18, 19]
  }

  lemma ShiftedFacts(list: seq<Gid>)
    requires Shifted(list)
    ensures |list| == 7 && Distinct(list) && list[0..3] == [13, 14, 15] && list[6..7] == [19]
  {
  }

  /** Two pages that lie end to end but hold the same gids. */
  ghost predicate Doubled(pages: seq<Pages.Page>) {
    |pages| == 2 && pages[0] == Pages.Page(0, [13, 14, 15]) && pages[1] == Pages.Page(3, [13, 14, 15])
  }

  /** The first page has lost everything. */
  ghost predicate Emptied(pages: seq<Pages.Page>) {
    |pages| == 2 && pages[0] == Pages.Page(0, []) && pages[1] == Pages.Page(3, [13, 14, 15])
  }

  lemma ThreeGids(gids: seq<Gid>)
    requires gids == [10, 11, 12]
    ensures Distinct(gids) && Elems(gids) == {10, 11, 12}
  {
  }

  lemma EmptiedPages(pages: seq<Pages.Page>, dropped: set<Gid>)
    requires |pages| == 2 && dropped == {10, 11, 12}
    requires pages[0] == Pages.Page(0, [10, 11, 12]) && pages[1] == Pages.Page(3, [13, 14, 15])
    ensures Emptied(Purge(pages, dropped))
  {
    ThreeGids(pages[0].gids);
    NoElems(Without(pages[0].gids, dropped));
    WithoutNothing(pages[1].gids, dropped);
  }

  lemma EmptiedGap(pages: seq<Pages.Page>, gids: seq<Gid>, total: U64)
    requires Emptied(pages) && total == 7 && gids == [13, 14, 15]
    ensures NextOffset(pages, 0) == 0 && Doubled(PagesWith(pages, 0, Some(total), gids))
  {
    var (e, p, q) := (pages[0], Pages.Page(0, gids), pages[1]);
    assert pages == [e] + [q];
    WalkCons(e, [q], 0);
    InsertSnoc([e], q, p);
    InsertSnoc([], e, p);
    assert [] + [e] == [e] && [] + [p] == [p] && [p] + [q] == [p, q];
    BelowAll([p, q], total);
  }

  lemma RepeatedPage(a: seq<Gid>, b: seq<Gid>)
    requires a == [13, 14, 15]
    ensures Dedup(a + a) == a && (b == [19] ==> Dedup(a + a + b) == [13, 14, 15, 19])
  {
    assert Distinct(a);
    DedupOfDistinct(a);
    DedupRepeats(a, a);
    if b == [19] {
      DedupSnoc(a + a, 19);
    }
  }

  lemma DoubledGids(pages: seq<Pages.Page>)
    requires Doubled(pages)
    ensures Dedup(Flatten(pages)) == [13, 14, 15]
  {
    FlattenTwo(pages[0], pages[1]);
    assert pages == [pages[0], pages[1]];
    RepeatedPage(pages[0].gids, []);
  }

  lemma DoubledPages(pages: seq<Pages.Page>)
    requires Doubled(pages)
    ensures Sorted(pages) && NonOverlapping(pages) && NextOffset(pages, 0) == 6 && LeastUncovered(pages, 6)
  {
    var (p, q) := (pages[0], pages[1]);
    assert pages == [p] + [q] && [q] + [] == [q];
    WalkCons(p, [q], 0);
    WalkCons(q, [], 3);
    Cons(p, [q], 0);
    Cons(q, [], 3);
    NonOverlappingTiles(pages, 0);
    NextOffsetIsLeastUncovered(pages);
  }

  lemma DoubledEnd(pages: seq<Pages.Page>, gids: seq<Gid>, total: U64)
    requires Doubled(pages) && gids == [19] && total == 7
    ensures var all := PagesWith(pages, 6, Some(total), gids);
            NextOffset(all, 0) == 7 && Dedup(Flatten(all)) == [13, 14, 15, 19]
  {
    var (p, q, r) := (pages[0], pages[1], Pages.Page(6, gids));
    InsertLast(pages, r, total);
    assert pages + [r] == [p, q, r];
    WalkThree(p, q, r, 0);
    FlattenThree(p, q, r);
    RepeatedPage(p.gids, gids);
  }

  lemma DoubledRequest(st: StoreState, engine: seq<TaskSnapshot>, list: seq<Gid>, history: HistoryAnswer)
    requires st.Valid() && st.stoppedTotal == Some(7) && Doubled(st.stoppedPages)
    requires list == Gids(engine) && Shifted(list)
    ensures CanLoadMore(st) && st.stoppedOrder == [13, 14, 15]
    ensures var r := LoadMore(st, engine, 3, history);
            r.Success? && !CanLoadMore(r.value) && r.value.stoppedOrder == [13, 14, 15, 19]
  {
    ShiftedFacts(list);
    DoubledGids(st.stoppedPages);
    DoubledPages(st.stoppedPages);
    DoubledEnd(st.stoppedPages, list[6..7], 7);
    AppliedRequest(st, engine, 6, 3, history);
  }

  lemma EmptiedRequest(st: StoreState, engine: seq<TaskSnapshot>, list: seq<Gid>, history: HistoryAnswer)
    requires st.Valid() && st.stoppedTotal == Some(10) && Emptied(st.stoppedPages)
    requires list == Gids(engine) && Shifted(list)
    ensures var r := LoadMore(st, engine, 3, history);
            r.Success? && r.value.Valid() && r.value.stoppedTotal == Some(7) && Doubled(r.value.stoppedPages)
  {
    ShiftedFacts(list);
    EmptiedGap(st.stoppedPages, list[0..3], 7);
    AppliedRequest(st, engine, 0, 3, history);
  }

  lemma EmptiedStore(st: StoreState, session: EngineSession, ops: seq<StoreOp>,
                     a: seq<TaskSnapshot>, b: seq<TaskSnapshot>, live: seq<TaskSnapshot>)
    requires Holds(st, session, []) && Shortens(ops, session.generation, a, b, live) && Gids(live) == [10, 11, 12]
    ensures Run(st, ops).Valid() && Run(st, ops).stoppedTotal == Some(10) && Emptied(Run(st, ops).stoppedPages)
  {
    ThreeGids(Gids(live));
    ShortenedStore(st, session, ops, a, b, live);
    EmptiedPages([Pages.Page(0, Gids(a)), Pages.Page(3, Gids(b))], Elems(Gids(live)));
  }

  /**
   A live list takes the whole first page. The pages never overlap and each request starts at the least offset
   that no page covers, and still 16, 17 and 18 are never loaded.
   */
  lemma EmptiedPageSkipsResults(session: EngineSession, lower: string -> string, ops: seq<StoreOp>,
                                a: seq<TaskSnapshot>, b: seq<TaskSnapshot>, live: seq<TaskSnapshot>,
                                engine: seq<TaskSnapshot>, first: HistoryAnswer, second: HistoryAnswer)
    requires Shortens(ops, session.generation, a, b, live) && Gids(live) == [10, 11, 12] && Shifted(Gids(engine))
    ensures var one := LoadMore(Run(NewStore(session, lower), ops), engine, 3, first);
            && one.Success? && CanLoadMore(one.value) && one.value.stoppedOrder == [13, 14, 15]
            && NonOverlapping(one.value.stoppedPages)
            && LeastUncovered(one.value.stoppedPages, NextOffset(one.value.stoppedPages, 0))
            && var two := LoadMore(one.value, engine, 3, second);
            && two.Success? && !CanLoadMore(two.value) && two.value.stoppedOrder == [13, 14, 15, 19]
  {
    EmptiedStore(NewStore(session, lower), session, ops, a, b, live);
    EmptiedRequest(Run(NewStore(session, lower), ops), engine, Gids(engine), first);
    var one := LoadMore(Run(NewStore(session, lower), ops), engine, 3, first).value;
    DoubledPages(one.stoppedPages);
    DoubledRequest(one, engine, Gids(engine), second);
  }

  lemma InsertFirst(e: Pages.Page, q: Pages.Page, p: Pages.Page)
    requires e.offset == p.offset < q.offset
    ensures Insert([e, q], p) == [p] + [q]
  {
    var first := [e];
    InsertSnoc(first, q, p);
    InsertSnoc([], e, p);
    assert first + [q] == [e, q] && [] + [e] == first && [] + [p] == [p];
  }

  /** A page replaces the first of two, and the second lies past the total. */
  lemma ReplaceFirst(e: Pages.Page, q: Pages.Page, p: Pages.Page, total: U64)
    requires e.offset == p.offset < total <= q.offset
    ensures PagesWith([e, q], p.offset, Some(total), p.gids) == [p]
  {
    InsertFirst(e, q, p);
    BelowAll([p], total);
    var both := [p] + [q];
    assert both[..1] == [p] && both[1] == q;
    assert Below(both, total) == [p];
  }

  lemma FlattenOne(p: Pages.Page)
    ensures Flatten([p]) == p.gids
  {
    FlattenSnoc([], p);
    assert [] + [p] == [p] && [] + p.gids == p.gids;
  }

  lemma OneListedPage(p: Pages.Page)
    requires Distinct(p.gids)
    ensures Dedup(Flatten([p])) == p.gids
  {
    FlattenOne(p);
    DedupOfDistinct(p.gids);
  }

  lemma EmptiedWalk(pages: seq<Pages.Page>)
    requires Emptied(pages)
    ensures NextOffset(pages, 0) == 0
  {
    WalkCons(pages[0], pages[1..], 0);
    assert pages == [pages[0]] + pages[1..];
  }

  lemma RecoveredPages(pages: seq<Pages.Page>, gids: seq<Gid>, total: U64)
    requires Emptied(pages) && total == 3 && gids == [13, 14, 15]
    ensures Dedup(Flatten(PagesWith(pages, 0, Some(total), gids))) == gids
  {
    var p := Pages.Page(0, gids);
    assert pages == [pages[0], pages[1]];
    ReplaceFirst(pages[0], pages[1], p, total);
    assert Distinct(gids);
    OneListedPage(p);
  }

  lemma RecoveringRequest(st: StoreState, engine: seq<TaskSnapshot>, list: seq<Gid>, history: HistoryAnswer)
    requires st.Valid() && st.stoppedTotal == Some(10) && Emptied(st.stoppedPages)
    requires list == Gids(engine) && list == [13, 14, 15]
    ensures var r := LoadMore(st, engine, 3, history);
            r.Success? && r.value.stoppedOrder == [13, 14, 15]
  {
    assert Distinct(list) && list[0..3] == list;
    EmptiedWalk(st.stoppedPages);
    RecoveredPages(st.stoppedPages, list[0..3], 3);
    AppliedRequest(st, engine, 0, 3, history);
  }

  /** When little remains of the list, one request may load all of it, although a page was emptied before another. */
  lemma ShortListRecovers(session: EngineSession, lower: string -> string, ops: seq<StoreOp>,
                          a: seq<TaskSnapshot>, b: seq<TaskSnapshot>, live: seq<TaskSnapshot>,
                          engine: seq<TaskSnapshot>, history: HistoryAnswer)
    requires Shortens(ops, session.generation, a, b, live) && Gids(live) == [10, 11, 12] && Gids(engine) == [13, 14, 15]
    ensures var r := LoadMore(Run(NewStore(session, lower), ops), engine, 3, history);
            r.Success? && r.value.stoppedOrder == Gids(engine)
  {
    EmptiedStore(NewStore(session, lower), session, ops, a, b, live);
    RecoveringRequest(Run(NewStore(session, lower), ops), engine, Gids(engine), history);
  }
}
