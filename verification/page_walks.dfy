/** How the walk over the stopped pages and the insertion of a page work together. */
module PageWalks {
  import opened Prelude
  import opened Seqs
  import opened Tasks
  import opened Pages
  import opened StoreSpec

  lemma FlattenSnoc(pages: seq<Page>, page: Page)
    ensures Flatten(pages + [page]) == Flatten(pages) + page.gids
  {
    assert (pages + [page])[..|pages|] == pages;
  }

  lemma SortedTail(pages: seq<Page>)
    requires Sorted(pages) && pages != []
    ensures Sorted(pages[1..]) && forall p :: p in pages[1..] ==> p.offset > pages[0].offset
  {
  }

  lemma Cons(head: Page, rest: seq<Page>, expected: U64)
    ensures Length([head] + rest) == |head.gids| + Length(rest)
    ensures NextOffset([head] + rest, expected)
            == if head.offset > expected then expected else NextOffset(rest, SatAdd(expected, |head.gids|))
  {
    assert ([head] + rest)[1..] == rest;
  }

  lemma InsertSnoc(init: seq<Page>, last: Page, page: Page)
    ensures Insert(init + [last], page) ==
            if last.offset < page.offset then init + [last] + [page]
            else if last.offset == page.offset then init + [page]
            else Insert(init, page) + [last]
  {
    assert (init + [last])[..|init|] == init;
  }

  // ----- Pages whose contents lie end to end

  /** The pages that hold anything lie end to end from `start`; empty pages may be anywhere. */
  predicate Compact(pages: seq<Page>, start: nat) {
    pages == [] ||
    if pages[0].gids == [] then Compact(pages[1..], start)
    else pages[0].offset == start && Compact(pages[1..], start + |pages[0].gids|)
  }

  lemma {:induction false} CompactSnoc(pages: seq<Page>, start: nat, page: Page)
    ensures Compact(pages + [page], start) <==>
            Compact(pages, start) && (page.gids == [] || page.offset == start + Length(pages))
  {
    var all := pages + [page];
    if pages == [] {
      assert all[1..] == [];
    } else {
      assert all[1..] == pages[1..] + [page];
      CompactSnoc(pages[1..], start + |pages[0].gids|, page);
    }
  }

  /** What the compact pages of a list say about each of them. */
  lemma {:induction false} CompactBounds(pages: seq<Page>, start: nat)
    requires Compact(pages, start)
    ensures forall p :: p in pages && p.gids != [] ==>
              start <= p.offset && p.offset + |p.gids| <= start + Length(pages)
  {
    if pages != [] {
      CompactBounds(pages[1..], start + |pages[0].gids|);
      assert pages == [pages[0]] + pages[1..];
    }
  }

  /** A walk ends at once when everything that holds anything lies behind a gap. */
  lemma {:induction false} WalkStops(pages: seq<Page>, expected: U64)
    requires forall p :: p in pages && p.gids != [] ==> p.offset > expected
    requires Sorted(pages)
    ensures NextOffset(pages, expected) == expected
  {
    if pages != [] && pages[0].offset <= expected {
      assert pages[0] in pages;
      SortedTail(pages);
      WalkStops(pages[1..], expected);
    }
  }

  /** Compact pages that all lie behind their start hold nothing. */
  lemma {:induction false} CompactBehind(pages: seq<Page>, start: nat, from: nat)
    requires Compact(pages, start) && from > start && forall p :: p in pages ==> p.offset > from
    ensures Length(pages) == 0
  {
    if pages != [] {
      assert pages[0] in pages;
      CompactBehind(pages[1..], start, from);
    }
  }

  lemma {:induction false} CompactWalk(pages: seq<Page>, start: U64)
    requires Sorted(pages) && Compact(pages, start) && start + Length(pages) <= U64_MAX
    ensures NextOffset(pages, start) == start + Length(pages)
  {
    if pages != [] {
      SortedTail(pages);
      CompactWalk(pages[1..], start + |pages[0].gids|);
      if pages[0].offset > start {
        CompactBehind(pages[1..], start, pages[0].offset);
      }
    }
  }

  /** The pages hold what they held before, and `gids` behind it. */
  ghost predicate Extends(before: seq<Page>, after: seq<Page>, gids: seq<Gid>) {
    && Compact(after, 0) && Length(after) == Length(before) + |gids|
    && Flatten(after) == Flatten(before) + gids
  }

  lemma ExtendsSnoc(pages: seq<Page>, page: Page)
    requires Compact(pages, 0) && Length(pages) == page.offset
    ensures Extends(pages, pages + [page], page.gids)
  {
    CompactSnoc(pages, 0, page);
    LengthSnoc(pages, page);
    FlattenSnoc(pages, page);
  }

  lemma ExtendsWithEmpty(before: seq<Page>, after: seq<Page>, empty: Page, gids: seq<Gid>)
    requires Extends(before, after, gids) && empty.gids == []
    ensures Extends(before + [empty], after + [empty], gids)
  {
    CompactSnoc(after, 0, empty);
    LengthSnoc(before, empty);
    LengthSnoc(after, empty);
    FlattenSnoc(before, empty);
    FlattenSnoc(after, empty);
  }

  /** A page at the end of compact pages continues them, whatever empty pages it meets. */
  lemma {:induction false} InsertCompact(pages: seq<Page>, page: Page)
    requires Sorted(pages) && Compact(pages, 0) && Length(pages) == page.offset
    ensures Extends(pages, Insert(pages, page), page.gids)
  {
    if pages == [] {
      ExtendsSnoc(pages, page);
      assert pages + [page] == [page];
    } else {
      var init, last := pages[..|pages| - 1], pages[|pages| - 1];
      assert pages == init + [last];
      InsertSnoc(init, last, page);
      CompactSnoc(init, 0, last);
      LengthSnoc(init, last);
      FlattenSnoc(init, last);
      if last.offset < page.offset {
        ExtendsSnoc(pages, page);
      } else if last.offset == page.offset {
        ExtendsSnoc(init, page);
      } else {
        InsertCompact(init, page);
        ExtendsWithEmpty(init, Insert(init, page), last, page.gids);
      }
    }
  }

  lemma {:induction false} BelowAll(pages: seq<Page>, total: nat)
    requires forall p :: p in pages ==> p.offset < total
    ensures Below(pages, total) == pages
  {
    if pages != [] {
      var init, last := pages[..|pages| - 1], pages[|pages| - 1];
      assert pages == init + [last];
      BelowAll(init, total);
    }
  }

  /** Cutting off pages past a total that all contents lie below drops empty pages only. */
  lemma {:induction false} BelowDropsEmpty(pages: seq<Page>, total: nat)
    requires forall p :: p in pages && p.gids != [] ==> p.offset < total
    ensures Flatten(Below(pages, total)) == Flatten(pages) && Length(Below(pages, total)) == Length(pages)
    ensures forall start: nat :: Compact(pages, start) ==> Compact(Below(pages, total), start)
  {
    if pages != [] {
      var init, last := pages[..|pages| - 1], pages[|pages| - 1];
      assert pages == init + [last];
      BelowDropsEmpty(init, total);
      FlattenSnoc(init, last);
      LengthSnoc(init, last);
      if last.offset < total {
        FlattenSnoc(Below(init, total), last);
        LengthSnoc(Below(init, total), last);
      }
      forall start: nat | Compact(pages, start) ensures Compact(Below(pages, total), start) {
        CompactSnoc(init, start, last);
        CompactSnoc(Below(init, total), start, last);
      }
    }
  }

  /** The next page of a list whose contents are compact. */
  lemma CompactPagesWith(pages: seq<Page>, gids: seq<Gid>, total: U64)
    requires Sorted(pages) && Compact(pages, 0) && Length(pages) + |gids| <= total
    requires Length(pages) < total
    ensures Extends(pages, PagesWith(pages, Length(pages), Some(total), gids), gids)
  {
    var inserted := Insert(pages, Page(Length(pages), gids));
    InsertCompact(pages, Page(Length(pages), gids));
    CompactBounds(inserted, 0);
    BelowDropsEmpty(inserted, total);
  }

  // ----- Any pages

  lemma {:induction false} WalkGrows(pages: seq<Page>, expected: U64)
    requires expected + Length(pages) <= U64_MAX
    ensures expected <= NextOffset(pages, expected) <= expected + Length(pages)
  {
    if pages != [] {
      WalkGrows(pages[1..], expected + |pages[0].gids|);
    }
  }

  /** A page that starts no later than the walk ends was walked over whole. */
  lemma {:induction false} WalkedWhole(pages: seq<Page>, expected: U64, p: Page)
    requires Sorted(pages) && expected + Length(pages) <= U64_MAX
    requires p in pages && p.offset <= NextOffset(pages, expected)
    ensures p.offset + |p.gids| <= NextOffset(pages, expected)
  {
    SortedTail(pages);
    assert p == pages[0] || p in pages[1..];
    if pages[0].offset <= expected {
      WalkGrows(pages[1..], expected + |pages[0].gids|);
      if p != pages[0] {
        WalkedWhole(pages[1..], expected + |pages[0].gids|, p);
      }
    }
  }

  lemma {:induction false} NothingHeld(pages: seq<Page>)
    requires forall p :: p in pages ==> p.gids == []
    ensures Length(pages) == 0
  {
    if pages != [] {
      assert pages[0] in pages;
      NothingHeld(pages[1..]);
    }
  }

  /** A walk that leaves nothing behind adds up everything. */
  lemma {:induction false} WalkedAll(pages: seq<Page>, expected: U64)
    requires Sorted(pages) && expected + Length(pages) <= U64_MAX
    requires forall p :: p in pages && p.gids != [] ==> p.offset <= NextOffset(pages, expected)
    ensures NextOffset(pages, expected) == expected + Length(pages)
  {
    if pages != [] {
      SortedTail(pages);
      assert pages[0] in pages;
      if pages[0].offset > expected {
        NothingHeld(pages);
      } else {
        WalkedAll(pages[1..], expected + |pages[0].gids|);
      }
    }
  }

  lemma FrontCases(head: Page, init: seq<Page>, last: Page, page: Page)
    ensures [head] + init + [last] + [page] == [head] + (init + [last] + [page])
    ensures [head] + init + [page] == [head] + (init + [page])
    ensures [head] + Insert(init, page) + [last] == [head] + (Insert(init, page) + [last])
    ensures [page] + init + [last] == [page] + (init + [last])
    ensures [page] + ([head] + init) + [last] == [page] + ([head] + (init + [last]))
  {
  }

  /** Insertion seen from the front. */
  lemma {:induction false} InsertFront(head: Page, tail: seq<Page>, page: Page)
    requires Sorted([head] + tail)
    ensures Insert([head] + tail, page) ==
            if head.offset < page.offset then [head] + Insert(tail, page)
            else if head.offset == page.offset then [page] + tail
            else [page] + ([head] + tail)
  {
    if tail == [] {
      InsertSnoc([], head, page);
      assert [head] + tail == [] + [head] && [head] + [page] == [] + [head] + [page];
    } else {
      var init, last := tail[..|tail| - 1], tail[|tail| - 1];
      assert tail == init + [last] && [head] + tail == [head] + init + [last];
      assert ([head] + tail)[0] == head && ([head] + tail)[|tail|] == last;
      assert Sorted([head] + init) by {
        assert ([head] + tail)[..|tail|] == [head] + init;
      }
      InsertSnoc([head] + init, last, page);
      InsertSnoc(init, last, page);
      InsertFront(head, init, page);
      FrontCases(head, init, last, page);
    }
  }

  /** A page put where the walk stands. */
  lemma WalkPastFirst(page: Page, rest: seq<Page>, expected: U64)
    requires page.offset == expected && expected + |page.gids| + Length(rest) <= U64_MAX
    ensures Length([page] + rest) == |page.gids| + Length(rest)
    ensures NextOffset([page] + rest, expected) >= expected + |page.gids|
  {
    Cons(page, rest, expected);
    WalkGrows(rest, expected + |page.gids|);
  }

  /** The walk reaches beyond a page put into the pages, and their length grows by it. */
  ghost predicate PassedInserted(pages: seq<Page>, expected: U64, page: Page) {
    Length(Insert(pages, page)) == Length(pages) + |page.gids| &&
    NextOffset(Insert(pages, page), expected) >= page.offset + |page.gids|
  }

  lemma PassedFirst(head: Page, tail: seq<Page>, expected: U64, page: Page)
    requires Sorted([head] + tail) && expected + Length([head] + tail) + |page.gids| <= U64_MAX
    requires page.offset == NextOffset([head] + tail, expected)
    requires head.offset > expected || head.offset >= page.offset
    ensures PassedInserted([head] + tail, expected, page)
  {
    InsertFront(head, tail, page);
    Cons(head, tail, expected);
    if head.offset > expected {
      WalkPastFirst(page, [head] + tail, expected);
    } else {
      WalkGrows(tail, expected + |head.gids|);
      WalkPastFirst(page, tail, expected);
    }
  }

  lemma PassedCons(head: Page, tail: seq<Page>, expected: U64, page: Page)
    requires Sorted([head] + tail) && head.offset <= expected && head.offset < page.offset
    requires expected + |head.gids| <= U64_MAX
    ensures PassedInserted(tail, expected + |head.gids|, page) ==> PassedInserted([head] + tail, expected, page)
  {
    InsertFront(head, tail, page);
    Cons(head, tail, expected);
    Cons(head, Insert(tail, page), expected);
  }

  lemma PassedEmpty(expected: U64, page: Page)
    requires page.offset == expected && expected + |page.gids| <= U64_MAX
    ensures PassedInserted([], expected, page)
  {
    WalkPastFirst(page, [], expected);
    assert [page] + [] == [page];
  }

  lemma {:induction false} WalkPastInserted(pages: seq<Page>, expected: U64, page: Page)
    requires Sorted(pages) && expected + Length(pages) + |page.gids| <= U64_MAX
    requires page.offset == NextOffset(pages, expected)
    ensures PassedInserted(pages, expected, page)
  {
    if pages == [] {
      PassedEmpty(expected, page);
    } else {
      var (head, tail) := (pages[0], pages[1..]);
      assert pages == [head] + tail;
      Cons(head, tail, expected);
      if head.offset > expected || head.offset >= page.offset {
        PassedFirst(head, tail, expected, page);
      } else {
        SortedTail(pages);
        WalkPastInserted(tail, expected + |head.gids|, page);
        PassedCons(head, tail, expected, page);
      }
    }
  }

  lemma {:induction false} BelowFront(head: Page, tail: seq<Page>, total: nat)
    requires Sorted([head] + tail)
    ensures Below([head] + tail, total) == if head.offset < total then [head] + Below(tail, total) else []
  {
    if tail == [] {
      assert ([head] + tail)[..0] == [] && [head] + tail == [head];
    } else {
      var init, last := tail[..|tail| - 1], tail[|tail| - 1];
      assert tail == init + [last];
      assert ([head] + tail)[..|tail|] == [head] + init;
      assert ([head] + tail)[0] == head && ([head] + tail)[|tail|] == last;
      BelowFront(head, init, total);
      assert [head] + Below(init, total) + [last] == [head] + (Below(init, total) + [last]);
    }
  }

  /** Cutting pages off at a total does not stop the walk before that total. */
  ghost predicate ReachesTotal(pages: seq<Page>, expected: U64, total: U64) {
    NextOffset(Below(pages, total), expected) >= Min(NextOffset(pages, expected), total)
  }

  lemma ReachesFirst(head: Page, tail: seq<Page>, expected: U64, total: U64)
    requires Sorted([head] + tail) && (head.offset > expected || head.offset >= total)
    ensures ReachesTotal([head] + tail, expected, total)
  {
    BelowFront(head, tail, total);
    Cons(head, tail, expected);
    Cons(head, Below(tail, total), expected);
  }

  lemma ReachesCons(head: Page, tail: seq<Page>, expected: U64, total: U64)
    requires Sorted([head] + tail) && head.offset <= expected && head.offset < total
    requires expected + |head.gids| <= U64_MAX
    ensures ReachesTotal(tail, expected + |head.gids|, total) ==> ReachesTotal([head] + tail, expected, total)
  {
    BelowFront(head, tail, total);
    Cons(head, tail, expected);
    Cons(head, Below(tail, total), expected);
  }

  lemma NothingToWalk(expected: U64, total: U64)
    ensures ReachesTotal([], expected, total)
  {
  }

  lemma {:induction false} WalkBelow(pages: seq<Page>, expected: U64, total: U64)
    requires Sorted(pages) && expected + Length(pages) <= U64_MAX
    ensures ReachesTotal(pages, expected, total)
  {
    if pages == [] {
      NothingToWalk(expected, total);
    } else {
      var (head, tail) := (pages[0], pages[1..]);
      assert pages == [head] + tail;
      if head.offset > expected || head.offset >= total {
        ReachesFirst(head, tail, expected, total);
      } else {
        SortedTail(pages);
        WalkBelow(tail, expected + |head.gids|, total);
        ReachesCons(head, tail, expected, total);
      }
    }
  }

  /** One request at the end of the walk, over any pages whose contents lie below the total. */
  lemma RequestedPages(pages: seq<Page>, gids: seq<Gid>, total: U64)
    requires Sorted(pages) && Length(pages) + |gids| <= U64_MAX
    requires NextOffset(pages, 0) < total && NextOffset(pages, 0) + |gids| <= total
    requires forall p :: p in pages && p.gids != [] ==> p.offset < total
    ensures var (x, after) := (NextOffset(pages, 0), PagesWith(pages, NextOffset(pages, 0), Some(total), gids));
            && Sorted(after) && Length(after) == Length(pages) + |gids|
            && NextOffset(after, 0) >= x + |gids|
            && Elems(Flatten(after)) <= Elems(Flatten(pages)) + Elems(gids)
            && forall p :: p in after ==> p == Page(x, gids) || p in pages
  {
    var page := Page(NextOffset(pages, 0), gids);
    var inserted := Insert(pages, page);
    InsertIsMapUpdate(pages, page);
    WalkPastInserted(pages, 0, page);
    WalkBelow(inserted, 0, total);
    BelowSorted(inserted, total);
    BelowDropsEmpty(inserted, total);
    FlattenElems(pages);
    FlattenElems(inserted);
  }
}
