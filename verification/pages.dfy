/** The stopped-result page cache: an ordered map from start offset to a page of gids. */
module Pages {
  import opened Prelude
  import opened Seqs
  import opened Tasks

  datatype Page = Page(offset: U64, gids: seq<Gid>)

  /** A `BTreeMap` as its entries in key order. */
  ghost predicate Sorted(pages: seq<Page>) {
    forall i, j :: 0 <= i < j < |pages| ==> pages[i].offset < pages[j].offset
  }

  function Flatten(pages: seq<Page>): seq<Gid> {
    if pages == [] then [] else Flatten(pages[..|pages| - 1]) + pages[|pages| - 1].gids
  }

  /** `BTreeMap::insert`. */
  function Insert(pages: seq<Page>, page: Page): (r: seq<Page>)
    ensures |r| >= 1
    ensures forall p :: p in r ==> p == page || p in pages
  {
    if pages == [] then [page]
    else
      var init, last := pages[..|pages| - 1], pages[|pages| - 1];
      if last.offset < page.offset then pages + [page]
      else if last.offset == page.offset then init + [page]
      else Insert(init, page) + [last]
  }

  /** `BTreeMap::retain(|offset, _| *offset < total)`. */
  function Below(pages: seq<Page>, total: nat): (r: seq<Page>)
    ensures forall p :: p in r <==> p in pages && p.offset < total
  {
    if pages == [] then []
    else
      var init, last := Below(pages[..|pages| - 1], total), pages[|pages| - 1];
      if last.offset < total then init + [last] else init
  }

  /** Every page with the given gids filtered out of it. */
  function Purge(pages: seq<Page>, dropped: set<Gid>): (r: seq<Page>)
    ensures |r| == |pages|
    ensures forall i :: 0 <= i < |r| ==> r[i] == Page(pages[i].offset, Without(pages[i].gids, dropped))
  {
    seq(|pages|, i requires 0 <= i < |pages| => Page(pages[i].offset, Without(pages[i].gids, dropped)))
  }

  lemma SortedInit(pages: seq<Page>)
    requires Sorted(pages) && pages != []
    ensures Sorted(pages[..|pages| - 1])
    ensures forall p :: p in pages[..|pages| - 1] ==> p.offset < pages[|pages| - 1].offset
  {
  }

  lemma SortedSnoc(pages: seq<Page>, page: Page)
    requires Sorted(pages) && forall p :: p in pages ==> p.offset < page.offset
    ensures Sorted(pages + [page])
  {
    forall i | 0 <= i < |pages| ensures (pages + [page])[i].offset < page.offset {
      assert pages[i] in pages;
    }
  }

  lemma {:induction false} InsertIsMapUpdate(pages: seq<Page>, page: Page)
    requires Sorted(pages)
    ensures Sorted(Insert(pages, page))
    ensures forall p :: p in Insert(pages, page) <==> p == page || (p in pages && p.offset != page.offset)
  {
    if pages != [] {
      var init, last := pages[..|pages| - 1], pages[|pages| - 1];
      assert pages == init + [last];
      SortedInit(pages);
      if last.offset < page.offset {
        SortedSnoc(pages, page);
      } else if last.offset == page.offset {
        SortedSnoc(init, page);
      } else {
        InsertIsMapUpdate(init, page);
        SortedSnoc(Insert(init, page), last);
      }
    }
  }

  lemma {:induction false} BelowSorted(pages: seq<Page>, total: nat)
    requires Sorted(pages)
    ensures Sorted(Below(pages, total))
  {
    if pages != [] {
      var init, last := pages[..|pages| - 1], pages[|pages| - 1];
      BelowSorted(init, total);
      var r := Below(init, total);
      assert forall i :: 0 <= i < |r| ==> r[i] in init;
    }
  }

  lemma {:induction false} FlattenElems(pages: seq<Page>)
    ensures Elems(Flatten(pages)) == set p, g | p in pages && g in p.gids :: g
  {
    if pages != [] {
      var init, last := pages[..|pages| - 1], pages[|pages| - 1];
      FlattenElems(init);
      assert pages == init + [last];
      var held := set p, g | p in init && g in p.gids :: g;
      ElemsConcat(Flatten(init), last.gids);
      forall g ensures g in Elems(Flatten(pages)) <==> exists p :: p in pages && g in p.gids {
        assert g in Elems(last.gids) <==> g in last.gids;
        assert g in Elems(Flatten(init)) <==> g in held;
        assert last in pages;
      }
    }
  }

  lemma {:induction false} FlattenPurge(pages: seq<Page>, dropped: set<Gid>)
    ensures Flatten(Purge(pages, dropped)) == Without(Flatten(pages), dropped)
  {
    if pages != [] {
      var init, last := pages[..|pages| - 1], pages[|pages| - 1];
      FlattenPurge(init, dropped);
      assert Purge(pages, dropped)[..|pages| - 1] == Purge(init, dropped);
      WithoutConcat(Flatten(init), last.gids, dropped);
    }
  }

  lemma PurgeNothing(pages: seq<Page>, dropped: set<Gid>)
    requires Elems(Flatten(pages)) !! dropped
    ensures Purge(pages, dropped) == pages
  {
    FlattenElems(pages);
    forall i | 0 <= i < |pages| ensures Purge(pages, dropped)[i] == pages[i] {
      assert pages[i] in pages;
      assert Elems(pages[i].gids) <= Elems(Flatten(pages));
      WithoutNothing(pages[i].gids, dropped);
    }
  }

  // ----- The next offset to request

  /** The walk of `next_stopped_offset`: stop at the first gap, otherwise add up lengths. */
  function NextOffset(pages: seq<Page>, expected: U64): U64 {
    if pages == [] || pages[0].offset > expected then expected
    else NextOffset(pages[1..], SatAdd(expected, |pages[0].gids|))
  }

  function Length(pages: seq<Page>): nat {
    if pages == [] then 0 else |pages[0].gids| + Length(pages[1..])
  }

  ghost predicate Covered(pages: seq<Page>, k: nat) {
    exists i :: 0 <= i < |pages| && pages[i].offset <= k < pages[i].offset + |pages[i].gids|
  }

  ghost predicate LeastUncovered(pages: seq<Page>, n: nat) {
    !Covered(pages, n) && forall k :: 0 <= k < n ==> Covered(pages, k)
  }

  /** Up to the first gap, every page that holds anything starts where the previous ones end. */
  predicate Tiles(pages: seq<Page>, expected: nat) {
    pages == [] || pages[0].offset > expected ||
    ((pages[0].gids == [] || pages[0].offset == expected) && Tiles(pages[1..], expected + |pages[0].gids|))
  }

  ghost predicate NonOverlapping(pages: seq<Page>) {
    forall i, j :: 0 <= i < j < |pages| ==> pages[i].offset + |pages[i].gids| <= pages[j].offset
  }

  lemma CoveredSnoc(walked: seq<Page>, page: Page)
    ensures forall k: nat :: Covered(walked + [page], k) <==>
                             Covered(walked, k) || page.offset <= k < page.offset + |page.gids|
  {
    var all := walked + [page];
    forall k: nat ensures Covered(all, k) <==> Covered(walked, k) || page.offset <= k < page.offset + |page.gids| {
      if Covered(walked, k) {
        var i :| 0 <= i < |walked| && walked[i].offset <= k < walked[i].offset + |walked[i].gids|;
        assert all[i] == walked[i];
      }
      if page.offset <= k < page.offset + |page.gids| {
        assert all[|walked|] == page;
      }
    }
  }

  lemma {:induction false} WalkTiling(rest: seq<Page>, walked: seq<Page>, expected: U64)
    requires Sorted(walked + rest) && expected + Length(rest) <= U64_MAX
    requires Tiles(rest, expected)
    requires forall k: nat :: Covered(walked, k) <==> k < expected
    ensures LeastUncovered(walked + rest, NextOffset(rest, expected))
    decreases |rest|
  {
    var all := walked + rest;
    if rest == [] {
      assert all == walked;
    } else if rest[0].offset > expected {
      forall i | 0 <= i < |all| && all[i].offset <= expected ensures i < |walked| {
        assert all[|walked|] == rest[0];
      }
      forall k: nat | k <= expected ensures Covered(all, k) <==> Covered(walked, k) {
        if Covered(walked, k) {
          var i :| 0 <= i < |walked| && walked[i].offset <= k < walked[i].offset + |walked[i].gids|;
          assert all[i] == walked[i];
        }
        if Covered(all, k) {
          var i :| 0 <= i < |all| && all[i].offset <= k < all[i].offset + |all[i].gids|;
          assert all[i] == walked[i];
        }
      }
    } else {
      CoveredSnoc(walked, rest[0]);
      assert walked + [rest[0]] + rest[1..] == all;
      WalkTiling(rest[1..], walked + [rest[0]], expected + |rest[0].gids|);
    }
  }

  /** Once a page starts inside what was counted before it, some counted offset stays uncovered. */
  lemma {:induction false} WalkOverlapping(rest: seq<Page>, walked: seq<Page>, expected: U64, hole: nat, holed: bool)
    returns (k: nat)
    requires Sorted(walked + rest) && expected + Length(rest) <= U64_MAX
    requires !holed ==> !Tiles(rest, expected)
    requires holed ==> hole < expected && !Covered(walked, hole)
    requires forall i :: 0 <= i < |walked| ==> walked[i].offset + |walked[i].gids| <= expected
    ensures k < NextOffset(rest, expected) && !Covered(walked + rest, k)
    decreases |rest|
  {
    var all := walked + rest;
    if rest == [] {
      assert all == walked;
      k := hole;
    } else if rest[0].offset > expected {
      k := hole;
      forall i | 0 <= i < |all| && all[i].offset <= k ensures i < |walked| && all[i] == walked[i] {
        assert all[|walked|] == rest[0];
      }
    } else {
      var page := rest[0];
      CoveredSnoc(walked, page);
      assert walked + [page] + rest[1..] == all;
      var expected' := expected + |page.gids|;
      if page.offset < expected && page.gids != [] {
        k := WalkOverlapping(rest[1..], walked + [page], expected', expected' - 1, true);
      } else {
        k := WalkOverlapping(rest[1..], walked + [page], expected', hole, holed);
      }
    }
  }

  /** `next_stopped_offset` is the least offset no page covers exactly when the walked pages tile. */
  lemma NextOffsetIsLeastUncovered(pages: seq<Page>)
    requires Sorted(pages) && Length(pages) <= U64_MAX
    ensures LeastUncovered(pages, NextOffset(pages, 0)) <==> Tiles(pages, 0)
  {
    if Tiles(pages, 0) {
      WalkTiling(pages, [], 0);
      assert [] + pages == pages;
    } else {
      var k := WalkOverlapping(pages, [], 0, 0, false);
      assert [] + pages == pages;
    }
  }

  lemma {:induction false} NonOverlappingTiles(pages: seq<Page>, expected: nat)
    requires NonOverlapping(pages)
    requires pages != [] ==> pages[0].offset >= expected
    ensures Tiles(pages, expected)
    decreases |pages|
  {
    if pages != [] && pages[0].offset <= expected {
      assert forall i :: 0 <= i < |pages[1..]| ==> pages[1..][i] == pages[i + 1];
      NonOverlappingTiles(pages[1..], expected + |pages[0].gids|);
    }
  }

  // ----- The next offset as a count

  /** The walk meets no gap. */
  predicate Gapless(pages: seq<Page>, expected: U64) {
    pages == [] || (pages[0].offset <= expected && Gapless(pages[1..], SatAdd(expected, |pages[0].gids|)))
  }

  lemma {:induction false} GaplessLength(pages: seq<Page>, expected: U64)
    requires Gapless(pages, expected) && expected + Length(pages) <= U64_MAX
    ensures NextOffset(pages, expected) == expected + Length(pages)
  {
    if pages != [] {
      GaplessLength(pages[1..], expected + |pages[0].gids|);
    }
  }

  lemma {:induction false} LengthSnoc(pages: seq<Page>, page: Page)
    ensures Length(pages + [page]) == Length(pages) + |page.gids|
  {
    var all := pages + [page];
    if pages == [] {
      assert all[1..] == [];
    } else {
      assert all[1..] == pages[1..] + [page];
      LengthSnoc(pages[1..], page);
    }
  }

  lemma {:induction false} FlattenLength(pages: seq<Page>)
    ensures |Flatten(pages)| == Length(pages)
  {
    if pages != [] {
      var init, last := pages[..|pages| - 1], pages[|pages| - 1];
      assert pages == init + [last];
      FlattenLength(init);
      LengthSnoc(init, last);
    }
  }

  /** Without a gap, the next offset is the number of distinct loaded gids exactly when no gid was loaded twice. */
  lemma NextOffsetCountsGids(pages: seq<Page>)
    requires Gapless(pages, 0) && Length(pages) <= U64_MAX
    ensures NextOffset(pages, 0) == |Dedup(Flatten(pages))| <==> Distinct(Flatten(pages))
  {
    GaplessLength(pages, 0);
    FlattenLength(pages);
    DedupKeepsLength(Flatten(pages));
  }

  /** Two pages that overlap: the walk reports 6 although offset 4 was never loaded. */
  lemma OverlapCounterexample()
    ensures var pages := [Page(0, [10, 11, 12]), Page(1, [11, 12, 13])];
            Sorted(pages) && NextOffset(pages, 0) == 6 && !Covered(pages, 4)
  {
    var pages := [Page(0, [10, 11, 12]), Page(1, [11, 12, 13])];
    assert pages[1..][1..] == [];
    assert NextOffset(pages[1..], 3) == 6;
  }
}
