/** When load-more skips results: exactly, for a request, for a page that loses gids, and for a whole run. */
module Skipping {
  import opened Prelude
  import opened Seqs
  import opened Tasks
  import opened Pages
  import opened StoreSpec
  import opened StoreProps
  import opened StoreDiff
  import opened PageWalks
  import opened Paging

  // ----- Pages that agree with the engine's list

  /** Every page holds what the list has at its offset. */
  ghost predicate Agrees(pages: seq<Pages.Page>, list: seq<Gid>) {
    forall p :: p in pages && p.gids != [] ==>
      p.offset + |p.gids| <= |list| && p.gids == list[p.offset..p.offset + |p.gids|]
  }

  lemma HeldAt(p: Pages.Page, list: seq<Gid>, k: nat)
    requires p.offset + |p.gids| <= |list| && p.gids == list[p.offset..p.offset + |p.gids|]
    requires Distinct(list) && k < |list|
    ensures list[k] in p.gids <==> p.offset <= k < p.offset + |p.gids|
  {
    if list[k] in p.gids {
      var t :| 0 <= t < |p.gids| && p.gids[t] == list[k];
      assert list[p.offset + t] == list[k];
    }
    if p.offset <= k < p.offset + |p.gids| {
      assert p.gids[k - p.offset] == list[k];
    }
  }

  lemma HeldIffCovered(pages: seq<Pages.Page>, list: seq<Gid>, k: nat)
    requires Agrees(pages, list) && Distinct(list) && k < |list|
    ensures list[k] in Flatten(pages) <==> Covered(pages, k)
  {
    FlattenElems(pages);
    var g := list[k];
    assert g in Flatten(pages) <==> g in Elems(Flatten(pages));
    if g in Flatten(pages) {
      var p :| p in pages && g in p.gids;
      HeldAt(p, list, k);
      var i :| 0 <= i < |pages| && pages[i] == p;
    }
    if Covered(pages, k) {
      var i :| 0 <= i < |pages| && pages[i].offset <= k < pages[i].offset + |pages[i].gids|;
      assert pages[i] in pages;
      HeldAt(pages[i], list, k);
    }
  }

  /** While the pages agree with the list, the walk ends behind nothing unloaded exactly when the pages tile. */
  lemma WalkSkipsNothingIff(pages: seq<Pages.Page>, list: seq<Gid>)
    requires Sorted(pages) && Agrees(pages, list) && Distinct(list)
    requires Length(pages) <= U64_MAX && NextOffset(pages, 0) <= |list|
    ensures (forall k :: 0 <= k < NextOffset(pages, 0) ==> list[k] in Flatten(pages)) <==> Tiles(pages, 0)
  {
    NextOffsetIsLeastUncovered(pages);
    if Tiles(pages, 0) {
      forall k | 0 <= k < NextOffset(pages, 0) ensures list[k] in Flatten(pages) {
        HeldIffCovered(pages, list, k);
      }
    } else {
      var k := WalkOverlapping(pages, [], 0, 0, false);
      assert [] + pages == pages;
      HeldIffCovered(pages, list, k);
    }
  }

  /** While the pages agree with the engine's list, a request skips nothing exactly when the walked pages tile. */
  lemma RequestSkipsNothingIff(st: StoreState, engine: seq<TaskSnapshot>)
    requires st.Valid() && Distinct(Gids(engine)) && Agrees(st.stoppedPages, Gids(engine))
    requires Length(st.stoppedPages) <= U64_MAX && NextOffset(st.stoppedPages, 0) <= |engine|
    ensures (forall k :: 0 <= k < NextOffset(st.stoppedPages, 0) ==> Gids(engine)[k] in st.stoppedOrder)
            <==> Tiles(st.stoppedPages, 0)
  {
    var flat := Flatten(st.stoppedPages);
    WalkSkipsNothingIff(st.stoppedPages, Gids(engine));
    assert forall g :: g in st.stoppedOrder <==> g in Elems(st.stoppedOrder);
    assert forall g :: g in flat <==> g in Elems(flat);
  }

  // ----- Pages that lose gids

  /** The gids an operation takes out of the stopped pages. */
  function Taken(op: StoreOp): set<Gid> {
    match op
    case Reconcile(_, active, waiting) => Elems(Gids(active + waiting))
    case Remove(_, gids) => Elems(gids)
    case Target(_, gid, None) => {gid}
    case _ => {}
  }

  /** Operations that take gids out of pages: live lists, removals, and targeted answers without a task. */
  predicate Takes(op: StoreOp) {
    op.Reconcile? || op.Remove? || (op.Target? && op.snapshot.None?)
  }

  lemma TakenPages(st: StoreState, op: StoreOp)
    requires st.Valid() && Takes(op) && Perform(st, op).Applied?
    ensures var after := Perform(st, op).store;
            && after.Valid() && after.stoppedPages == Purge(st.stoppedPages, Taken(op))
            && after.stoppedTotal == st.stoppedTotal
  {
    PerformValid(st, op);
    PerformTouchesOnly(st, op);
    if op.Target? {
      assert Elems([op.gid]) == {op.gid};
    }
  }

  /** No page loses a gid while a page behind it keeps one. */
  predicate LosesAtTheEnd(pages: seq<Pages.Page>, dropped: set<Gid>) {
    forall i, j | 0 <= i < j < |pages| ::
      Elems(pages[j].gids) <= dropped || Elems(pages[i].gids) !! dropped
  }

  lemma LosesCons(head: Pages.Page, tail: seq<Pages.Page>, dropped: set<Gid>)
    ensures LosesAtTheEnd([head] + tail, dropped) <==>
            LosesAtTheEnd(tail, dropped) &&
            (Elems(head.gids) !! dropped || forall q :: q in tail ==> Elems(q.gids) <= dropped)
  {
    var all := [head] + tail;
    if LosesAtTheEnd(all, dropped) {
      forall i, j | 0 <= i < j < |tail| ensures Elems(tail[j].gids) <= dropped || Elems(tail[i].gids) !! dropped {
        assert all[i + 1] == tail[i] && all[j + 1] == tail[j];
      }
      forall q | q in tail && !(Elems(head.gids) !! dropped) ensures Elems(q.gids) <= dropped {
        var j :| 0 <= j < |tail| && tail[j] == q;
        assert all[0] == head && all[j + 1] == q;
      }
    }
  }

  lemma PurgeCons(head: Pages.Page, tail: seq<Pages.Page>, dropped: set<Gid>)
    ensures Purge([head] + tail, dropped)
            == [Pages.Page(head.offset, Without(head.gids, dropped))] + Purge(tail, dropped)
  {
  }

  lemma EmptiedIffDropped(p: Pages.Page, dropped: set<Gid>)
    ensures Without(p.gids, dropped) == [] <==> Elems(p.gids) <= dropped
  {
    NoElems(Without(p.gids, dropped));
    if Elems(p.gids) <= dropped {
      assert Elems(p.gids) - dropped == {};
    } else {
      var g :| g in Elems(p.gids) && g !in dropped;
      assert g in Elems(p.gids) - dropped;
    }
  }

  lemma {:induction false} NothingLeftIff(pages: seq<Pages.Page>, dropped: set<Gid>)
    ensures Length(Purge(pages, dropped)) == 0 <==> forall q :: q in pages ==> Elems(q.gids) <= dropped
  {
    if pages != [] {
      var (head, tail) := (pages[0], pages[1..]);
      assert pages == [head] + tail;
      PurgeCons(head, tail, dropped);
      Cons(Pages.Page(head.offset, Without(head.gids, dropped)), Purge(tail, dropped), 0);
      EmptiedIffDropped(head, dropped);
      NothingLeftIff(tail, dropped);
    }
  }

  lemma {:induction false} ShorterIffMet(s: seq<Gid>, dropped: set<Gid>)
    ensures |Without(s, dropped)| == |s| <==> Elems(s) !! dropped
  {
    if Elems(s) !! dropped {
      WithoutNothing(s, dropped);
    } else {
      var init, last := s[..|s| - 1], s[|s| - 1];
      assert s == init + [last];
      ElemsConcat(init, [last]);
      ShorterIffMet(init, dropped);
    }
  }

  /** What is left of compact pages is walked over whole. */
  ghost predicate StillWalked(pages: seq<Pages.Page>, dropped: set<Gid>, start: U64) {
    NextOffset(Purge(pages, dropped), start) == start + Length(Purge(pages, dropped))
  }

  lemma PurgedBehind(tail: seq<Pages.Page>, dropped: set<Gid>, start: nat, expected: U64)
    requires Sorted(tail) && Compact(tail, start) && expected < start
    ensures NextOffset(Purge(tail, dropped), expected) == expected
  {
    CompactBounds(tail, start);
    forall q | q in Purge(tail, dropped) && q.gids != [] ensures q.offset > expected {
      var i :| 0 <= i < |tail| && Purge(tail, dropped)[i] == q;
      assert tail[i] in tail && (tail[i].gids == [] ==> q.gids == []);
    }
    WalkStops(Purge(tail, dropped), expected);
  }

  lemma HeadKept(head: Pages.Page, tail: seq<Pages.Page>, dropped: set<Gid>, start: U64)
    requires Elems(head.gids) !! dropped && head.offset <= start && start + |head.gids| <= U64_MAX
    ensures StillWalked([head] + tail, dropped, start) <==> StillWalked(tail, dropped, start + |head.gids|)
    ensures LosesAtTheEnd([head] + tail, dropped) <==> LosesAtTheEnd(tail, dropped)
  {
    LosesCons(head, tail, dropped);
    PurgeCons(head, tail, dropped);
    WithoutNothing(head.gids, dropped);
    Cons(head, Purge(tail, dropped), start);
  }

  lemma {:induction false} EmptyPagesLose(pages: seq<Pages.Page>, dropped: set<Gid>)
    requires Length(pages) == 0
    ensures Length(Purge(pages, dropped)) == 0 && LosesAtTheEnd(pages, dropped)
  {
    if pages != [] {
      var (head, tail) := (pages[0], pages[1..]);
      assert pages == [head] + tail;
      EmptyPagesLose(tail, dropped);
      PurgeCons(head, tail, dropped);
      Cons(Pages.Page(head.offset, Without(head.gids, dropped)), Purge(tail, dropped), 0);
      LosesCons(head, tail, dropped);
    }
  }

  lemma NothingWalked(head: Pages.Page, tail: seq<Pages.Page>, dropped: set<Gid>, start: U64)
    requires head.gids == [] && head.offset > start && Length(tail) == 0
    ensures StillWalked([head] + tail, dropped, start) && LosesAtTheEnd([head] + tail, dropped)
  {
    LosesCons(head, tail, dropped);
    PurgeCons(head, tail, dropped);
    EmptyPagesLose(tail, dropped);
    Cons(head, Purge(tail, dropped), start);
  }

  lemma HeadLost(head: Pages.Page, tail: seq<Pages.Page>, dropped: set<Gid>, start: U64)
    requires Sorted(tail) && Compact(tail, start + |head.gids|) && head.offset == start
    requires !(Elems(head.gids) !! dropped) && start + |head.gids| + Length(tail) <= U64_MAX
    ensures StillWalked([head] + tail, dropped, start) <==> Length(Purge(tail, dropped)) == 0
  {
    PurgeCons(head, tail, dropped);
    ShorterIffMet(head.gids, dropped);
    var kept := Without(head.gids, dropped);
    Cons(Pages.Page(head.offset, kept), Purge(tail, dropped), start);
    PurgedBehind(tail, dropped, start + |head.gids|, start + |kept|);
  }

  lemma AllDroppedLose(pages: seq<Pages.Page>, dropped: set<Gid>)
    ensures (forall q :: q in pages ==> Elems(q.gids) <= dropped) ==> LosesAtTheEnd(pages, dropped)
  {
  }

  lemma SomeLost(head: Pages.Page, tail: seq<Pages.Page>, dropped: set<Gid>, start: U64)
    requires Sorted(tail) && Compact(tail, start + |head.gids|) && head.offset == start
    requires !(Elems(head.gids) !! dropped) && start + |head.gids| + Length(tail) <= U64_MAX
    ensures StillWalked([head] + tail, dropped, start) <==> LosesAtTheEnd([head] + tail, dropped)
  {
    HeadLost(head, tail, dropped, start);
    LosesCons(head, tail, dropped);
    NothingLeftIff(tail, dropped);
    AllDroppedLose(tail, dropped);
  }

  lemma {:induction false} WalkedIffLosesAtTheEnd(pages: seq<Pages.Page>, dropped: set<Gid>, start: U64)
    requires Sorted(pages) && Compact(pages, start) && start + Length(pages) <= U64_MAX
    ensures StillWalked(pages, dropped, start) <==> LosesAtTheEnd(pages, dropped)
  {
    if pages != [] {
      var (head, tail) := (pages[0], pages[1..]);
      assert pages == [head] + tail;
      SortedTail(pages);
      if !(Elems(head.gids) !! dropped) {
        SomeLost(head, tail, dropped, start);
      } else if head.offset <= start {
        WalkedIffLosesAtTheEnd(tail, dropped, start + |head.gids|);
        HeadKept(head, tail, dropped, start);
      } else {
        CompactBehind(tail, start, head.offset);
        NothingWalked(head, tail, dropped, start);
      }
    }
  }

  lemma {:induction false} EmptyIsCompact(pages: seq<Pages.Page>, start: nat)
    requires Length(pages) == 0
    ensures Compact(pages, start)
  {
    if pages != [] {
      EmptyIsCompact(pages[1..], start);
    }
  }

  lemma {:induction false} LosingAtTheEndKeepsCompact(pages: seq<Pages.Page>, dropped: set<Gid>, start: nat)
    requires Compact(pages, start) && LosesAtTheEnd(pages, dropped)
    ensures Compact(Purge(pages, dropped), start)
  {
    if pages != [] {
      var (head, tail) := (pages[0], pages[1..]);
      assert pages == [head] + tail;
      LosesCons(head, tail, dropped);
      PurgeCons(head, tail, dropped);
      var kept := Pages.Page(head.offset, Without(head.gids, dropped));
      assert ([kept] + Purge(tail, dropped))[1..] == Purge(tail, dropped);
      if Elems(head.gids) !! dropped {
        WithoutNothing(head.gids, dropped);
        LosingAtTheEndKeepsCompact(tail, dropped, start + |head.gids|);
      } else {
        NothingLeftIff(tail, dropped);
        EmptyIsCompact(Purge(tail, dropped), start);
        EmptyIsCompact(Purge(tail, dropped), start + |kept.gids|);
      }
    }
  }

  lemma PrefixWithout(a: seq<Gid>, b: seq<Gid>, dropped: set<Gid>)
    requires Distinct(a + b)
    ensures Dedup(Without(a, dropped)) == Without(a, dropped) && Without(a, dropped) <= Without(a + b, dropped)
  {
    assert forall i :: 0 <= i < |a| ==> (a + b)[i] == a[i];
    WithoutDistinct(a, dropped);
    DedupOfDistinct(Without(a, dropped));
    WithoutConcat(a, b, dropped);
  }

  lemma PurgedPrefix(pages: seq<Pages.Page>, list: seq<Gid>, n: nat, dropped: set<Gid>)
    requires n <= |list| && Flatten(pages) == list[..n] && Distinct(list)
    ensures var left := Flatten(Purge(pages, dropped));
            Dedup(left) == left && left <= Without(list, dropped) && Length(Purge(pages, dropped)) == |left| <= n
  {
    var (a, b) := (list[..n], list[n..]);
    assert list == a + b;
    PrefixWithout(a, b, dropped);
    FlattenPurge(pages, dropped);
    FlattenLength(Purge(pages, dropped));
  }

  lemma TakenGids(st: StoreState, engine: seq<TaskSnapshot>, n: nat, op: StoreOp)
    requires st.Valid() && HoldsPrefix(st, engine, n) && Distinct(Gids(engine)) && Takes(op) && Perform(st, op).Applied?
    ensures var (after, list) := (Perform(st, op).store, Without(Gids(engine), Taken(op)));
            && after.stoppedOrder == Flatten(after.stoppedPages) && after.stoppedOrder <= list
            && Length(after.stoppedPages) == |after.stoppedOrder| <= n
  {
    var dropped := Taken(op);
    TakenPages(st, op);
    PurgedPrefix(st.stoppedPages, Gids(engine), n, dropped);
  }

  /**
   After gids were taken out of a loaded prefix, what is left is a prefix of the engine's remaining list, and the
   next request continues it exactly when no page lost a gid while a page behind it kept one.
   */
  lemma RequestContinuesIff(st: StoreState, engine: seq<TaskSnapshot>, n: nat, op: StoreOp)
    requires st.Valid() && HoldsPrefix(st, engine, n) && n <= U64_MAX && Distinct(Gids(engine))
    requires Takes(op) && Perform(st, op).Applied?
    ensures var (after, list) := (Perform(st, op).store, Without(Gids(engine), Taken(op)));
            && after.stoppedOrder <= list && NextOffset(after.stoppedPages, 0) <= |after.stoppedOrder|
            && (NextOffset(after.stoppedPages, 0) == |after.stoppedOrder|
                <==> LosesAtTheEnd(st.stoppedPages, Taken(op)))
  {
    TakenPages(st, op);
    TakenGids(st, engine, n, op);
    WalkGrows(Perform(st, op).store.stoppedPages, 0);
    WalkedIffLosesAtTheEnd(st.stoppedPages, Taken(op), 0);
  }

  // ----- Whole runs: nothing is lost

  lemma NoMoreNoChange(st: StoreState, engine: seq<TaskSnapshot>, pageSize: U32, answers: seq<HistoryAnswer>)
    requires |engine| <= U64_MAX && !CanLoadMore(st)
    ensures LoadRepeatedly(st, engine, pageSize, answers) == Success(st)
  {
    if answers != [] {
      NoMoreNoChange(st, engine, pageSize, answers[..|answers| - 1]);
    }
  }

  /** `later` is the engine's list without the gids the operation took. */
  ghost predicate Leaves(engine: seq<TaskSnapshot>, op: StoreOp, later: seq<TaskSnapshot>) {
    Gids(later) == Without(Gids(engine), Taken(op))
  }

  /** A store that holds a prefix loads the rest, whatever total it last heard of. */
  lemma PrefixLosesNothing(st: StoreState, later: seq<TaskSnapshot>, m: nat, total: U64, pageSize: U32,
                           answers: seq<HistoryAnswer>)
    requires st.Valid() && |later| <= total && Distinct(Gids(later)) && HoldsPrefix(st, later, m)
    requires st.stoppedTotal == Some(total) && pageSize >= 1 && answers != [] && |answers| >= |later|
    ensures var r := LoadRepeatedly(st, later, pageSize, answers);
            r.Success? && r.value.stoppedOrder == Gids(later)
  {
    if CanLoadMore(st) {
      LoadMoreConverges(st, later, m, pageSize, answers);
      AtLeastOnce(|answers|, pageSize);
    } else {
      NoMoreNoChange(st, later, pageSize, answers);
      CompactWalk(st.stoppedPages, 0);
      PrefixIsStopped(st, later, m);
    }
  }

  lemma LeftPrefix(st: StoreState, engine: seq<TaskSnapshot>, n: nat, op: StoreOp, later: seq<TaskSnapshot>)
    requires st.Valid() && HoldsPrefix(st, engine, n) && Distinct(Gids(engine))
    requires Takes(op) && Perform(st, op).Applied? && Leaves(engine, op, later)
    requires LosesAtTheEnd(st.stoppedPages, Taken(op))
    ensures var after := Perform(st, op).store;
            HoldsPrefix(after, later, |after.stoppedOrder|)
  {
    TakenPages(st, op);
    TakenGids(st, engine, n, op);
    LosingAtTheEndKeepsCompact(st.stoppedPages, Taken(op), 0);
  }

  lemma LaterFacts(engine: seq<TaskSnapshot>, op: StoreOp, later: seq<TaskSnapshot>)
    requires Leaves(engine, op, later) && Distinct(Gids(engine))
    ensures Distinct(Gids(later)) && |later| <= |engine|
  {
    WithoutDistinct(Gids(engine), Taken(op));
  }

  /** While gids are only lost at the end of the pages, load-more goes on to load the whole remaining list. */
  lemma LosingAtTheEndLosesNothing(st: StoreState, engine: seq<TaskSnapshot>, n: nat, op: StoreOp,
                                   later: seq<TaskSnapshot>, pageSize: U32, answers: seq<HistoryAnswer>)
    requires |engine| <= U64_MAX && LoadedTo(st, engine, n) && Distinct(Gids(engine)) && pageSize >= 1
    requires Takes(op) && Perform(st, op).Applied? && Leaves(engine, op, later)
    requires LosesAtTheEnd(st.stoppedPages, Taken(op)) && answers != [] && |answers| >= |later|
    ensures |later| <= |engine|
    ensures var r := LoadRepeatedly(Perform(st, op).store, later, pageSize, answers);
            r.Success? && r.value.stoppedOrder == Gids(later)
  {
    var after := Perform(st, op).store;
    LaterFacts(engine, op, later);
    TakenPages(st, op);
    LeftPrefix(st, engine, n, op, later);
    PrefixLosesNothing(after, later, |after.stoppedOrder|, |engine|, pageSize, answers);
  }

  // ----- Whole runs: something is lost

  lemma {:induction false} ElemsCount(s: seq<Gid>)
    ensures |Elems(s)| <= |s|
    ensures Distinct(s) ==> |Elems(s)| == |s|
  {
    if s != [] {
      var init, last := s[..|s| - 1], s[|s| - 1];
      assert s == init + [last];
      ElemsConcat(init, [last]);
      ElemsCount(init);
      assert Elems(s) == Elems(init) + {last};
      if Distinct(s) {
        assert Distinct(init) && last !in Elems(init);
      }
    }
  }

  lemma UnionCount(a: set<Gid>, b: set<Gid>)
    ensures |a + b| <= |a| + |b|
    ensures a * b != {} ==> |a + b| < |a| + |b|
  {
    assert a + b == a + (b - a) && |a + b| == |a| + |b - a|;
    assert b == (b - a) + (a * b) && |b| == |b - a| + |a * b|;
  }

  lemma {:induction false} SubsetCount(a: set<Gid>, b: set<Gid>)
    requires a <= b
    ensures |a| <= |b|
  {
    assert b == a + (b - a) && |b| == |a| + |b - a|;
  }

  /** Pages that hold no more than `total` together, of which `n` at most came before the requests. */
  ghost predicate Bounded(pages: seq<Pages.Page>, n: nat, total: U64) {
    && Sorted(pages) && Length(pages) <= total && Length(pages) <= n + NextOffset(pages, 0)
    && (forall p :: p in pages && p.gids != [] ==>
          p.offset < total && (p.offset < n || p.offset <= NextOffset(pages, 0)))
  }

  /** Fewer gids than places: some gid is held twice. */
  ghost predicate Repeats(pages: seq<Pages.Page>) {
    |Elems(Flatten(pages))| < Length(pages)
  }

  /** A request keeps the bound when the list is long enough, and repeats a gid that is already held. */
  lemma BoundedRequest(pages: seq<Pages.Page>, n: nat, total: U64, gids: seq<Gid>, pageSize: nat)
    requires Bounded(pages, n, total) && 2 * n + pageSize <= total && NextOffset(pages, 0) < total
    requires |gids| == Min(pageSize, total - NextOffset(pages, 0))
    ensures var after := PagesWith(pages, NextOffset(pages, 0), Some(total), gids);
            && Bounded(after, n, total)
            && (Repeats(pages) || Elems(Flatten(pages)) * Elems(gids) != {} ==> Repeats(after))
            && NextOffset(after, 0) >= NextOffset(pages, 0) + |gids|
  {
    var x := NextOffset(pages, 0);
    if x >= n {
      WalkedAll(pages, 0);
    }
    RequestedPages(pages, gids, total);
    var after := PagesWith(pages, x, Some(total), gids);
    FlattenLength(pages);
    ElemsCount(Flatten(pages));
    ElemsCount(gids);
    UnionCount(Elems(Flatten(pages)), Elems(gids));
    SubsetCount(Elems(Flatten(after)), Elems(Flatten(pages)) + Elems(gids));
  }

  /** A store whose pages repeat a gid and leave no room for the whole list. */
  ghost predicate Lossy(st: StoreState, n: nat, total: U64) {
    st.Valid() && st.stoppedTotal == Some(total) && Bounded(st.stoppedPages, n, total) && Repeats(st.stoppedPages)
  }

  ghost predicate StillLossy(r: Result<StoreState, StoreError>, n: nat, total: U64) {
    r.Success? && Lossy(r.value, n, total)
  }

  /** The gids the next request loads. */
  function Asked(st: StoreState, later: seq<TaskSnapshot>, pageSize: nat): seq<Gid> {
    Gids(EnginePage(later, NextOffset(st.stoppedPages, 0), pageSize))
  }

  lemma AskedFacts(st: StoreState, later: seq<TaskSnapshot>, pageSize: nat)
    requires NextOffset(st.stoppedPages, 0) <= |later|
    ensures |Asked(st, later, pageSize)| == Min(pageSize, |later| - NextOffset(st.stoppedPages, 0))
    ensures Asked(st, later, pageSize) != [] ==>
              Asked(st, later, pageSize)[0] == Gids(later)[NextOffset(st.stoppedPages, 0)]
  {
  }

  /** What a request leaves in the store. */
  ghost predicate Requested(st: StoreState, r: Result<StoreState, StoreError>, total: U64, gids: seq<Gid>) {
    && r.Success? && r.value.Valid() && r.value.stoppedTotal == Some(total)
    && r.value.stoppedPages == PagesWith(st.stoppedPages, NextOffset(st.stoppedPages, 0), Some(total), gids)
  }

  lemma RequestStores(st: StoreState, later: seq<TaskSnapshot>, pageSize: U32, history: HistoryAnswer)
    requires st.Valid() && |later| <= U64_MAX && Distinct(Gids(later)) && CanLoadMore(st)
    requires NextOffset(st.stoppedPages, 0) <= |later|
    ensures Requested(st, LoadMore(st, later, pageSize, history), |later|, Asked(st, later, pageSize))
  {
    var offset := NextOffset(st.stoppedPages, 0);
    assert Asked(st, later, pageSize) == Gids(later)[offset..Min(offset + pageSize, |later|)] by {
      EnginePageGids(later, offset, pageSize);
    }
    AppliedRequest(st, later, offset, pageSize, history);
  }

  lemma LossyApplied(st: StoreState, r: Result<StoreState, StoreError>, n: nat, total: U64, gids: seq<Gid>,
                     pageSize: nat)
    requires Lossy(st, n, total) && 2 * n + pageSize <= total && NextOffset(st.stoppedPages, 0) < total
    requires |gids| == Min(pageSize, total - NextOffset(st.stoppedPages, 0)) && Requested(st, r, total, gids)
    ensures StillLossy(r, n, total)
  {
    BoundedRequest(st.stoppedPages, n, total, gids, pageSize);
  }

  lemma LossyRequest(st: StoreState, later: seq<TaskSnapshot>, n: nat, pageSize: U32, history: HistoryAnswer)
    requires |later| <= U64_MAX && Lossy(st, n, |later|) && Distinct(Gids(later)) && 2 * n + pageSize <= |later|
    ensures StillLossy(LoadMore(st, later, pageSize, history), n, |later|)
  {
    if CanLoadMore(st) {
      AskedFacts(st, later, pageSize);
      RequestStores(st, later, pageSize, history);
      LossyApplied(st, LoadMore(st, later, pageSize, history), n, |later|, Asked(st, later, pageSize), pageSize);
    }
  }

  lemma {:induction false} LossyRun(st: StoreState, later: seq<TaskSnapshot>, n: nat, pageSize: U32,
                                    answers: seq<HistoryAnswer>)
    requires |later| <= U64_MAX && Distinct(Gids(later)) && 2 * n + pageSize <= |later| && answers != []
    requires StillLossy(LoadMore(st, later, pageSize, answers[0]), n, |later|)
    ensures StillLossy(LoadRepeatedly(st, later, pageSize, answers), n, |later|)
  {
    var (init, last) := (answers[..|answers| - 1], answers[|answers| - 1]);
    assert answers == init + [last];
    if init == [] {
      LoadRepeatedlySnoc(st, later, pageSize, [], last);
    } else {
      assert init[0] == answers[0];
      LossyRun(st, later, n, pageSize, init);
      LoadRepeatedlySnoc(st, later, pageSize, init, last);
      LossyRequest(LoadRepeatedly(st, later, pageSize, init).value, later, n, pageSize, last);
    }
  }

  lemma LossyMisses(st: StoreState, later: seq<TaskSnapshot>, n: nat)
    requires |later| <= U64_MAX && Lossy(st, n, |later|) && Distinct(Gids(later))
    ensures !(Elems(Gids(later)) <= Elems(st.stoppedOrder))
  {
    ElemsCount(Gids(later));
    if Elems(Gids(later)) <= Elems(st.stoppedOrder) {
      SubsetCount(Elems(Gids(later)), Elems(Flatten(st.stoppedPages)));
    }
  }

  lemma PurgeShrinks(pages: seq<Pages.Page>, dropped: set<Gid>)
    ensures Length(Purge(pages, dropped)) <= Length(pages)
  {
    FlattenPurge(pages, dropped);
    FlattenLength(pages);
    FlattenLength(Purge(pages, dropped));
  }

  lemma LeftBounded(pages: seq<Pages.Page>, n: nat, dropped: set<Gid>, total: U64)
    requires Sorted(pages) && Compact(pages, 0) && Length(pages) == n <= total
    ensures Bounded(Purge(pages, dropped), n, total)
  {
    var left := Purge(pages, dropped);
    PurgeShrinks(pages, dropped);
    CompactBounds(pages, 0);
    forall p | p in left && p.gids != [] ensures p.offset < n {
      var i :| 0 <= i < |left| && left[i] == p;
      assert pages[i] in pages && (pages[i].gids == [] ==> p.gids == []);
    }
  }

  /** Bounded pages with a gap in front of something they hold. */
  ghost predicate Gapped(pages: seq<Pages.Page>, n: nat, total: U64, pageSize: nat) {
    Bounded(pages, n, total) && 2 * n + pageSize <= total && NextOffset(pages, 0) < Length(pages)
  }

  /** The next gids start with one that the pages hold already. */
  ghost predicate AskedAgain(pages: seq<Pages.Page>, total: U64, pageSize: nat, gids: seq<Gid>)
    requires NextOffset(pages, 0) <= total
  {
    && |gids| == Min(pageSize, total - NextOffset(pages, 0))
    && gids != [] && gids[0] in Elems(Flatten(pages))
  }

  /** A request into the gap loads a gid that a page behind the gap already holds. */
  lemma GapRepeats(pages: seq<Pages.Page>, n: nat, total: U64, gids: seq<Gid>, pageSize: nat)
    requires Gapped(pages, n, total, pageSize) && AskedAgain(pages, total, pageSize, gids)
    ensures var after := PagesWith(pages, NextOffset(pages, 0), Some(total), gids);
            Bounded(after, n, total) && Repeats(after)
  {
    assert gids[0] in Elems(Flatten(pages)) * Elems(gids);
    BoundedRequest(pages, n, total, gids, pageSize);
  }

  lemma GapAsked(st: StoreState, later: seq<TaskSnapshot>, n: nat, pageSize: nat)
    requires |later| <= U64_MAX && Gapped(st.stoppedPages, n, |later|, pageSize) && pageSize >= 1
    requires Flatten(st.stoppedPages) <= Gids(later)
    ensures AskedAgain(st.stoppedPages, |later|, pageSize, Asked(st, later, pageSize))
  {
    var (x, flat) := (NextOffset(st.stoppedPages, 0), Flatten(st.stoppedPages));
    FlattenLength(st.stoppedPages);
    AskedFacts(st, later, pageSize);
    assert Gids(later)[x] == flat[x] && flat[x] in Elems(flat);
  }

  lemma GapStored(st: StoreState, r: Result<StoreState, StoreError>, n: nat, total: U64, gids: seq<Gid>, pageSize: nat)
    requires Gapped(st.stoppedPages, n, total, pageSize) && AskedAgain(st.stoppedPages, total, pageSize, gids)
    requires Requested(st, r, total, gids)
    ensures StillLossy(r, n, total)
  {
    GapRepeats(st.stoppedPages, n, total, gids, pageSize);
  }

  /** The first request after such a loss. */
  lemma GapIsLossy(st: StoreState, later: seq<TaskSnapshot>, n: nat, pageSize: U32, history: HistoryAnswer)
    requires st.Valid() && |later| <= U64_MAX && Distinct(Gids(later)) && CanLoadMore(st) && pageSize >= 1
    requires Gapped(st.stoppedPages, n, |later|, pageSize) && Flatten(st.stoppedPages) <= Gids(later)
    ensures StillLossy(LoadMore(st, later, pageSize, history), n, |later|)
  {
    var (r, gids) := (LoadMore(st, later, pageSize, history), Asked(st, later, pageSize));
    GapAsked(st, later, n, pageSize);
    assert Requested(st, r, |later|, gids) by {
      RequestStores(st, later, pageSize, history);
    }
    GapStored(st, r, n, |later|, gids, pageSize);
  }

  /** What is left of the pages when one lost a gid in front of another. */
  lemma LeftGap(st: StoreState, engine: seq<TaskSnapshot>, n: nat, op: StoreOp, later: seq<TaskSnapshot>)
    requires |engine| <= U64_MAX && LoadedTo(st, engine, n) && Distinct(Gids(engine)) && n < |later|
    requires Takes(op) && Perform(st, op).Applied? && Leaves(engine, op, later)
    requires !LosesAtTheEnd(st.stoppedPages, Taken(op))
    ensures |later| <= |engine|
    ensures var after := Perform(st, op).store;
            && after.Valid() && CanLoadMore(after) && Bounded(after.stoppedPages, n, |later|)
            && Flatten(after.stoppedPages) <= Gids(later)
            && NextOffset(after.stoppedPages, 0) < Length(after.stoppedPages)
  {
    LaterFacts(engine, op, later);
    TakenPages(st, op);
    TakenGids(st, engine, n, op);
    RequestContinuesIff(st, engine, n, op);
    LeftBounded(st.stoppedPages, n, Taken(op), |later|);
  }

  /** When a page loses a gid in front of another, load-more never completes a list that is long enough. */
  lemma LosingInFrontLosesResults(st: StoreState, engine: seq<TaskSnapshot>, n: nat, op: StoreOp,
                                  later: seq<TaskSnapshot>, pageSize: U32, answers: seq<HistoryAnswer>)
    requires |engine| <= U64_MAX && LoadedTo(st, engine, n) && Distinct(Gids(engine)) && pageSize >= 1
    requires Takes(op) && Perform(st, op).Applied? && Leaves(engine, op, later)
    requires !LosesAtTheEnd(st.stoppedPages, Taken(op)) && 2 * n + pageSize <= |later| && answers != []
    ensures |later| <= |engine|
    ensures var r := LoadRepeatedly(Perform(st, op).store, later, pageSize, answers);
            r.Success? && !(Elems(Gids(later)) <= Elems(r.value.stoppedOrder))
  {
    var after := Perform(st, op).store;
    LaterFacts(engine, op, later);
    LeftGap(st, engine, n, op, later);
    GapIsLossy(after, later, n, pageSize, answers[0]);
    LossyRun(after, later, n, pageSize, answers);
    LossyMisses(LoadRepeatedly(after, later, pageSize, answers).value, later, n);
  }

  /**
   After gids were taken out of a loaded prefix, enough requests load the engine's whole remaining list exactly
   when no page lost a gid while a page behind it kept one. The list is longer than twice what was loaded; for a
   shorter one the repeated pages may happen to reach its end.
   */
  lemma LoadMoreLosesNothingIff(st: StoreState, engine: seq<TaskSnapshot>, n: nat, op: StoreOp,
                                later: seq<TaskSnapshot>, pageSize: U32, answers: seq<HistoryAnswer>)
    requires |engine| <= U64_MAX && LoadedTo(st, engine, n) && Distinct(Gids(engine)) && pageSize >= 1
    requires Takes(op) && Perform(st, op).Applied? && Leaves(engine, op, later)
    requires 2 * n + pageSize <= |later| <= |answers|
    ensures |later| <= |engine|
    ensures var r := LoadRepeatedly(Perform(st, op).store, later, pageSize, answers);
            && r.Success?
            && (Elems(Gids(later)) <= Elems(r.value.stoppedOrder) <==> LosesAtTheEnd(st.stoppedPages, Taken(op)))
  {
    if LosesAtTheEnd(st.stoppedPages, Taken(op)) {
      LosingAtTheEndLosesNothing(st, engine, n, op, later, pageSize, answers);
    } else {
      LosingInFrontLosesResults(st, engine, n, op, later, pageSize, answers);
    }
  }
}
