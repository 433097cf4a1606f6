/** Filtering, searching, sorting and counting the listed tasks. */
module View {
  import opened Prelude
  import opened Seqs
  import opened Tasks
  import opened StoreSpec
  import opened Text
  import Pages
  import opened Store

  datatype SortKey = Queue | Name | ByStatus | Progress | Speed | Size
  datatype SortDirection = Ascending | Descending
  datatype DownloadSort = DownloadSort(key: SortKey, direction: SortDirection)

  datatype TaskListQuery = TaskListQuery(
    filter: DownloadFilter, search: string, sort: DownloadSort, categoryId: Option<string>)

  datatype TaskCounts = TaskCounts(all: nat, active: nat, waiting: nat, paused: nat, completed: nat, failed: nat)

  // ----- Orderings

  datatype Ordering = Less | Equal | Greater {
    function Reverse(): Ordering {
      match this
      case Less => Greater
      case Equal => Equal
      case Greater => Less
    }

    function Then(next: Ordering): Ordering {
      if this == Equal then next else this
    }
  }

  function CompareNat(a: nat, b: nat): Ordering {
    if a < b then Less else if a == b then Equal else Greater
  }

  /** Code point order, which is also the byte order of UTF-8. */
  function CompareText(a: string, b: string): Ordering {
    if a == "" && b == "" then Equal
    else if a == "" then Less
    else if b == "" then Greater
    else CompareNat(a[0] as int, b[0] as int).Then(CompareText(a[1..], b[1..]))
  }

  function CompareName(a: Option<string>, b: Option<string>): Ordering {
    match (a, b)
    case (None, None) => Equal
    case (None, Some(_)) => Less
    case (Some(_), None) => Greater
    case (Some(x), Some(y)) => CompareText(x, y)
  }

  function StatusRank(status: DownloadStatus): nat {
    match status
    case Active => 0
    case Seeding => 1
    case Verifying => 2
    case Waiting => 3
    case Paused => 4
    case Error => 5
    case Complete => 6
    case Removed => 7
    case Unknown => 8
  }

  /** Ratios by cross-multiplication; an unknown total sorts lowest. */
  function CompareProgress(a: DownloadTask, b: DownloadTask): Ordering {
    if a.totalLength == 0 && b.totalLength == 0 then Equal
    else if a.totalLength == 0 then Less
    else if b.totalLength == 0 then Greater
    else CompareNat(a.completedLength * b.totalLength, b.completedLength * a.totalLength)
  }

  function Lookup<V>(m: map<Gid, V>, g: Gid): Option<V> {
    if g in m then Some(m[g]) else None
  }

  function CompareTasks(a: Option<DownloadTask>, b: Option<DownloadTask>, key: SortKey,
                        index: map<Gid, string>): Ordering {
    if a.None? || b.None? then CompareNat(if a.Some? then 1 else 0, if b.Some? then 1 else 0)
    else
      match key
      case Queue => Equal
      case Name => CompareName(Lookup(index, a.value.gid), Lookup(index, b.value.gid))
      case ByStatus => CompareNat(StatusRank(a.value.status), StatusRank(b.value.status))
      case Progress => CompareProgress(a.value, b.value)
      case Speed => CompareNat(a.value.downloadSpeed, b.value.downloadSpeed)
      case Size => CompareNat(a.value.totalLength, b.value.totalLength)
  }

  /** The comparator handed to the library sort. */
  function Compare(st: StoreState, sort: DownloadSort, a: Gid, b: Gid): Ordering {
    var ordering := CompareTasks(Lookup(st.tasks, a), Lookup(st.tasks, b), sort.key, st.searchIndex)
                    .Then(CompareNat(a, b));
    if sort.direction == Ascending then ordering else ordering.Reverse()
  }

  // ----- The comparator is a strict total order

  lemma {:induction false} TextLaws(a: string, b: string, c: string)
    ensures CompareText(b, a) == CompareText(a, b).Reverse()
    ensures CompareText(a, b) == Equal <==> a == b
    ensures CompareText(a, b) != Greater && CompareText(b, c) != Greater ==> CompareText(a, c) != Greater
    decreases |a| + |b| + |c|
  {
    if a != "" && b != "" {
      TextLaws(a[1..], b[1..], if c == "" then "" else c[1..]);
      assert a == [a[0]] + a[1..] && b == [b[0]] + b[1..];
    }
  }

  lemma Scale(a: nat, b: nat, c: nat)
    requires a <= b
    ensures a * c <= b * c
  {
  }

  lemma Cancel(a: nat, b: nat, c: nat)
    requires a * c <= b * c && c > 0
    ensures a <= b
  {
  }

  lemma Swap(a: nat, b: nat, c: nat)
    ensures (a * b) * c == (a * c) * b
  {
  }

  /** Ratios chain: cross-multiplied comparison is transitive once the middle total is positive. */
  lemma CrossTransitive(p: nat, q: nat, r: nat, s: nat, t: nat, u: nat)
    requires q > 0 && s > 0 && u > 0 && p * s <= r * q && r * u <= t * s
    ensures p * u <= t * q
  {
    Scale(p * s, r * q, u);
    Scale(r * u, t * s, q);
    Swap(p, s, u);
    Swap(r, q, u);
    Swap(t, s, q);
    Cancel(p * u, t * q, s);
  }

  lemma ProgressLaws(a: DownloadTask, b: DownloadTask, c: DownloadTask)
    ensures CompareProgress(b, a) == CompareProgress(a, b).Reverse()
    ensures CompareProgress(a, b) != Greater && CompareProgress(b, c) != Greater ==> CompareProgress(a, c) != Greater
  {
    if a.totalLength > 0 && b.totalLength > 0 && c.totalLength > 0 &&
       CompareProgress(a, b) != Greater && CompareProgress(b, c) != Greater {
      CrossTransitive(a.completedLength, a.totalLength, b.completedLength, b.totalLength, c.completedLength,
                      c.totalLength);
    }
  }

  lemma RatioOrder(p: nat, q: nat, r: nat, s: nat)
    requires q > 0 && s > 0
    ensures p as real / q as real <= r as real / s as real <==> p * s <= r * q
  {
    var (x, y, d, e) := (p as real / q as real, r as real / s as real, q as real, s as real);
    assert x * d == p as real && y * e == r as real;
    assert (p * s) as real == (x * d) * e;
    assert (r * q) as real == (y * e) * d;
    assert (x * d) * e == x * (d * e) && (y * e) * d == y * (d * e);
    assert d * e > 0.0;
    if x <= y {
      assert x * (d * e) <= y * (d * e);
    } else {
      assert x * (d * e) > y * (d * e);
    }
  }

  /** What the cross-multiplication means: the two completion ratios as real numbers. */
  lemma ProgressIsRatio(a: DownloadTask, b: DownloadTask)
    requires a.totalLength > 0 && b.totalLength > 0
    ensures var (x, y) := (a.completedLength as real / a.totalLength as real,
                           b.completedLength as real / b.totalLength as real);
            && (CompareProgress(a, b) == Less <==> x < y)
            && (CompareProgress(a, b) == Equal <==> x == y)
  {
    RatioOrder(a.completedLength, a.totalLength, b.completedLength, b.totalLength);
    RatioOrder(b.completedLength, b.totalLength, a.completedLength, a.totalLength);
  }

  lemma KeyLaws(st: StoreState, key: SortKey, a: Gid, b: Gid, c: Gid)
    ensures var (x, y, z, i) := (Lookup(st.tasks, a), Lookup(st.tasks, b), Lookup(st.tasks, c), st.searchIndex);
            && CompareTasks(y, x, key, i) == CompareTasks(x, y, key, i).Reverse()
            && (CompareTasks(x, y, key, i) != Greater && CompareTasks(y, z, key, i) != Greater
                ==> CompareTasks(x, z, key, i) != Greater)
  {
    var (x, y, z, i) := (Lookup(st.tasks, a), Lookup(st.tasks, b), Lookup(st.tasks, c), st.searchIndex);
    if x.Some? && y.Some? {
      if key == Progress {
        ProgressLaws(x.value, y.value, if z.Some? then z.value else y.value);
      } else if key == Name {
        var (m, n, o) := (Lookup(i, x.value.gid), Lookup(i, y.value.gid),
                          if z.Some? then Lookup(i, z.value.gid) else None);
        if m.Some? && n.Some? {
          TextLaws(m.value, n.value, if o.Some? then o.value else "");
        }
      }
    }
  }

  /** For every store, key and direction: irreflexive, total, antisymmetric and transitive. */
  lemma CompareIsStrictTotalOrder(st: StoreState, sort: DownloadSort, a: Gid, b: Gid, c: Gid)
    ensures Compare(st, sort, a, b) == Equal <==> a == b
    ensures Compare(st, sort, b, a) == Compare(st, sort, a, b).Reverse()
    ensures Compare(st, sort, a, b) == Less && Compare(st, sort, b, c) == Less ==> Compare(st, sort, a, c) == Less
  {
    KeyLaws(st, sort.key, a, b, c);
    KeyLaws(st, sort.key, b, c, a);
    KeyLaws(st, sort.key, c, b, a);
    KeyLaws(st, sort.key, b, a, c);
    KeyLaws(st, sort.key, a, c, b);
    KeyLaws(st, sort.key, c, a, b);
    KeyLaws(st, sort.key, a, a, a);
  }

  // ----- Filtering

  predicate CategoryMatches(st: StoreState, g: Gid, category: Option<string>) {
    category.None? || category.value == "" || Lookup(st.categoryByGid, g) == category
  }

  /** A category view follows a change of one affiliation: the task is in its new category only, and no other moves. */
  lemma CategoryViewFollows(st: StoreState, gid: Gid, category: Option<string>, g: Gid, wanted: string)
    requires wanted != ""
    ensures CategoryMatches(SetCategory(st, gid, category), g, Some(wanted))
            <==> if g == gid then category == Some(wanted) else CategoryMatches(st, g, Some(wanted))
  {
  }

  /** `query.search.trim().to_lowercase()`. */
  function Needle(st: StoreState, query: TaskListQuery): string {
    st.lower(Trim(query.search))
  }

  predicate Visible(st: StoreState, query: TaskListQuery, g: Gid) {
    g in st.tasks &&
    query.filter.Matches(st.tasks[g].status) &&
    CategoryMatches(st, g, query.categoryId) &&
    (Needle(st, query) == "" ||
     (g in st.searchIndex && Contains(st.searchIndex[g], Needle(st, query))) ||
     Contains(Hex(g, 16), Needle(st, query)))
  }

  /** The lists a view walks, in order. */
  function Chain(st: StoreState): seq<Gid> {
    st.activeOrder + st.waitingOrder + st.stoppedOrder + st.historyOrder
  }

  function Filter(st: StoreState, query: TaskListQuery, gids: seq<Gid>): seq<Gid> {
    if gids == [] then []
    else
      var rest, g := Filter(st, query, gids[..|gids| - 1]), gids[|gids| - 1];
      if Visible(st, query, g) then rest + [g] else rest
  }

  function FirstVisible(st: StoreState, query: TaskListQuery, gids: seq<Gid>): seq<Gid> {
    Filter(st, query, Dedup(gids))
  }

  function Matching(st: StoreState, query: TaskListQuery): seq<Gid> {
    FirstVisible(st, query, Chain(st))
  }

  // ----- Sorting. The library sort is modelled by insertion; `SortIsUnique` shows the choice is invisible.

  function InsertSorted(st: StoreState, sort: DownloadSort, sorted: seq<Gid>, g: Gid): seq<Gid> {
    if sorted == [] then [g]
    else
      var init, last := sorted[..|sorted| - 1], sorted[|sorted| - 1];
      if Compare(st, sort, last, g) == Greater then InsertSorted(st, sort, init, g) + [last] else sorted + [g]
  }

  function SortGids(st: StoreState, sort: DownloadSort, gids: seq<Gid>): seq<Gid> {
    if gids == [] then []
    else InsertSorted(st, sort, SortGids(st, sort, gids[..|gids| - 1]), gids[|gids| - 1])
  }

  function Reversed<T>(s: seq<T>): (r: seq<T>)
    ensures |r| == |s| && forall i :: 0 <= i < |s| ==> r[i] == s[|s| - 1 - i]
  {
    seq(|s|, i requires 0 <= i < |s| => s[|s| - 1 - i])
  }

  function Ordered(st: StoreState, sort: DownloadSort, gids: seq<Gid>): seq<Gid> {
    if sort.key != Queue then SortGids(st, sort, gids)
    else if sort.direction == Descending then Reversed(gids)
    else gids
  }

  function VisibleGids(st: StoreState, query: TaskListQuery): seq<Gid> {
    Ordered(st, query.sort, Matching(st, query))
  }

  /** Strictly ascending under the comparator, hence without duplicates. */
  ghost predicate InOrder(st: StoreState, sort: DownloadSort, s: seq<Gid>) {
    forall i, j :: 0 <= i < j < |s| ==> Compare(st, sort, s[i], s[j]) == Less
  }

  lemma {:induction false} InsertSortedFacts(st: StoreState, sort: DownloadSort, sorted: seq<Gid>, g: Gid)
    requires InOrder(st, sort, sorted) && g !in Elems(sorted)
    ensures InOrder(st, sort, InsertSorted(st, sort, sorted, g))
    ensures Elems(InsertSorted(st, sort, sorted, g)) == Elems(sorted) + {g}
    ensures |InsertSorted(st, sort, sorted, g)| == |sorted| + 1
  {
    if sorted != [] {
      var init, last := sorted[..|sorted| - 1], sorted[|sorted| - 1];
      assert Elems(sorted) == Elems(init) + {last};
      CompareIsStrictTotalOrder(st, sort, last, g, g);
      if Compare(st, sort, last, g) == Greater {
        InsertSortedFacts(st, sort, init, g);
        var r := InsertSorted(st, sort, init, g);
        forall i | 0 <= i < |r| ensures Compare(st, sort, r[i], last) == Less {
          assert r[i] in Elems(r);
        }
        ElemsConcat(r, [last]);
      } else {
        forall i | 0 <= i < |sorted| ensures Compare(st, sort, sorted[i], g) == Less {
          CompareIsStrictTotalOrder(st, sort, sorted[i], last, g);
        }
        ElemsConcat(sorted, [g]);
      }
    }
  }

  lemma {:induction false} SortGidsFacts(st: StoreState, sort: DownloadSort, gids: seq<Gid>)
    requires Distinct(gids)
    ensures InOrder(st, sort, SortGids(st, sort, gids))
    ensures Elems(SortGids(st, sort, gids)) == Elems(gids)
    ensures |SortGids(st, sort, gids)| == |gids|
  {
    if gids != [] {
      var init, last := gids[..|gids| - 1], gids[|gids| - 1];
      SortGidsFacts(st, sort, init);
      assert Elems(gids) == Elems(init) + {last} && last !in Elems(init);
      InsertSortedFacts(st, sort, SortGids(st, sort, init), last);
    }
  }

  lemma LastIsGreatest(st: StoreState, sort: DownloadSort, s: seq<Gid>, x: Gid)
    requires InOrder(st, sort, s) && x in Elems(s)
    ensures Compare(st, sort, s[|s| - 1], x) != Less
  {
    var i :| 0 <= i < |s| && s[i] == x;
    CompareIsStrictTotalOrder(st, sort, x, s[|s| - 1], x);
  }

  lemma InitElems(st: StoreState, sort: DownloadSort, s: seq<Gid>)
    requires InOrder(st, sort, s) && s != []
    ensures InOrder(st, sort, s[..|s| - 1])
    ensures Elems(s[..|s| - 1]) == Elems(s) - {s[|s| - 1]}
  {
    var init, last := s[..|s| - 1], s[|s| - 1];
    assert s == init + [last];
    ElemsConcat(init, [last]);
    forall i | 0 <= i < |init| ensures init[i] != last {
      CompareIsStrictTotalOrder(st, sort, last, last, last);
      assert Compare(st, sort, s[i], last) == Less;
    }
  }

  /** A set of gids has only one order under the comparator, so any correct sort gives this view. */
  lemma {:induction false} SortIsUnique(st: StoreState, sort: DownloadSort, s: seq<Gid>, t: seq<Gid>)
    requires InOrder(st, sort, s) && InOrder(st, sort, t) && Elems(s) == Elems(t)
    ensures s == t
    decreases |s|
  {
    if s == [] {
      NoElems(t);
    } else {
      var m, n := |s| - 1, |t| - 1;
      assert s[m] in Elems(t);
      if t == [] {
        assert false;
      } else {
        assert t[n] in Elems(s);
        LastIsGreatest(st, sort, s, t[n]);
        LastIsGreatest(st, sort, t, s[m]);
        CompareIsStrictTotalOrder(st, sort, s[m], t[n], s[m]);
        assert s[m] == t[n];
        InitElems(st, sort, s);
        InitElems(st, sort, t);
        SortIsUnique(st, sort, s[..m], t[..n]);
        assert s == s[..m] + [s[m]] && t == t[..n] + [t[n]];
      }
    }
  }

  lemma {:induction false} FilterFacts(st: StoreState, query: TaskListQuery, gids: seq<Gid>)
    requires Distinct(gids)
    ensures Distinct(Filter(st, query, gids))
    ensures Elems(Filter(st, query, gids)) == set g | g in gids && Visible(st, query, g)
  {
    if gids != [] {
      var init, g := gids[..|gids| - 1], gids[|gids| - 1];
      assert gids == init + [g];
      FilterFacts(st, query, init);
      var rest := Filter(st, query, init);
      assert g !in Elems(rest);
      if Visible(st, query, g) {
        ElemsConcat(rest, [g]);
        DistinctAppend(rest, g);
      }
    }
  }

  lemma DistinctConcat<T>(s: seq<T>, t: seq<T>)
    requires Distinct(s) && Distinct(t) && Elems(s) !! Elems(t)
    ensures Distinct(s + t) && Elems(s + t) == Elems(s) + Elems(t)
  {
    ElemsConcat(s, t);
    forall i, j | 0 <= i < |s| && 0 <= j < |t| ensures s[i] != t[j] {
      assert s[i] in Elems(s) && t[j] in Elems(t);
    }
  }

  /** In a valid store no list repeats a gid, so the walk never skips one. */
  lemma ChainDistinct(st: StoreState)
    requires st.Valid()
    ensures Distinct(Chain(st)) && Elems(Chain(st)) == st.Listed() && Dedup(Chain(st)) == Chain(st)
  {
    DedupDistinct(Pages.Flatten(st.stoppedPages));
    DistinctConcat(st.activeOrder, st.waitingOrder);
    DistinctConcat(st.activeOrder + st.waitingOrder, st.stoppedOrder);
    DistinctConcat(st.activeOrder + st.waitingOrder + st.stoppedOrder, st.historyOrder);
    DedupOfDistinct(Chain(st));
  }

  lemma InOrderDistinct(st: StoreState, sort: DownloadSort, s: seq<Gid>)
    requires InOrder(st, sort, s)
    ensures Distinct(s)
  {
    forall i, j | 0 <= i < j < |s| ensures s[i] != s[j] {
      CompareIsStrictTotalOrder(st, sort, s[i], s[j], s[i]);
    }
  }

  lemma ReversedElems<T>(s: seq<T>)
    ensures Elems(Reversed(s)) == Elems(s)
  {
    forall x | x in s ensures x in Reversed(s) {
      var i :| 0 <= i < |s| && s[i] == x;
      assert Reversed(s)[|s| - 1 - i] == x;
    }
  }

  /** A view shows exactly the matching gids of the lists, each once; a sorted one is strictly in order. */
  lemma ViewIsSortedAndComplete(st: StoreState, query: TaskListQuery)
    ensures Elems(VisibleGids(st, query)) == set g | g in Chain(st) && Visible(st, query, g)
    ensures Distinct(VisibleGids(st, query))
    ensures query.sort.key != Queue ==> InOrder(st, query.sort, VisibleGids(st, query))
  {
    var gids := Matching(st, query);
    DedupDistinct(Chain(st));
    FilterFacts(st, query, Dedup(Chain(st)));
    assert forall g :: g in Dedup(Chain(st)) <==> g in Elems(Dedup(Chain(st)));
    assert forall g :: g in Chain(st) <==> g in Elems(Chain(st));
    if query.sort.key != Queue {
      SortGidsFacts(st, query.sort, gids);
      InOrderDistinct(st, query.sort, SortGids(st, query.sort, gids));
    } else {
      ReversedElems(gids);
    }
  }

  lemma {:induction false} FilterPosition(st: StoreState, query: TaskListQuery, gids: seq<Gid>, i: nat) returns (a: nat)
    requires i < |Filter(st, query, gids)|
    ensures a < |gids| && gids[a] == Filter(st, query, gids)[i]
  {
    var init := gids[..|gids| - 1];
    if i < |Filter(st, query, init)| {
      a := FilterPosition(st, query, init, i);
    } else {
      a := |init|;
    }
  }

  lemma {:induction false} FilterPositions(st: StoreState, query: TaskListQuery, gids: seq<Gid>, i: nat, j: nat)
    returns (a: nat, b: nat)
    requires i < j < |Filter(st, query, gids)|
    ensures a < b < |gids|
    ensures gids[a] == Filter(st, query, gids)[i] && gids[b] == Filter(st, query, gids)[j]
  {
    var init := gids[..|gids| - 1];
    if j < |Filter(st, query, init)| {
      a, b := FilterPositions(st, query, init, i, j);
    } else {
      a := FilterPosition(st, query, init, i);
      b := |init|;
    }
  }

  /** A queue view keeps the order in which the lists name the gids. */
  lemma QueueViewKeepsOrder(st: StoreState, query: TaskListQuery, i: nat, j: nat)
    requires query.sort == DownloadSort(Queue, Ascending) && i < j < |VisibleGids(st, query)|
    ensures var (g, h) := (VisibleGids(st, query)[i], VisibleGids(st, query)[j]);
            g in Chain(st) && h in Chain(st) && FirstIndex(Chain(st), g) < FirstIndex(Chain(st), h)
  {
    var d := Dedup(Chain(st));
    var a, b := FilterPositions(st, query, d, i, j);
    DedupOrder(Chain(st), a, b);
  }

  /** The lists a queue view shows, in its order. */
  function ListAt(st: StoreState, k: int): seq<Gid>
    requires 0 <= k < 4
  {
    [st.activeOrder, st.waitingOrder, st.stoppedOrder, st.historyOrder][k]
  }

  /** How many gids come before list `k`. */
  function Start(st: StoreState, k: int): nat
    requires 0 <= k < 4
  {
    if k == 0 then 0 else Start(st, k - 1) + |ListAt(st, k - 1)|
  }

  lemma PlaceIsUnique<T>(s: seq<T>, x: T, k: nat)
    requires Distinct(s) && k < |s| && s[k] == x
    ensures x in s && FirstIndex(s, x) == k
  {
  }

  /** The gid is in list `k`, and that is where the chain has it. */
  ghost predicate PlacedIn(st: StoreState, g: Gid, k: int)
    requires 0 <= k < 4 && g in Chain(st)
  {
    g in ListAt(st, k) && FirstIndex(Chain(st), g) == Start(st, k) + FirstIndex(ListAt(st, k), g)
  }

  lemma ChainPlaces(st: StoreState, g: Gid)
    requires st.Valid() && g in Chain(st) && Distinct(Chain(st))
    ensures exists k :: 0 <= k < 4 && PlacedIn(st, g, k)
  {
    var (a, w, s, h) := (st.activeOrder, st.waitingOrder, st.stoppedOrder, st.historyOrder);
    if g in a {
      PlaceIsUnique(Chain(st), g, FirstIndex(a, g));
      assert PlacedIn(st, g, 0);
    } else if g in w {
      PlaceIsUnique(Chain(st), g, |a| + FirstIndex(w, g));
      assert PlacedIn(st, g, 1);
    } else if g in s {
      PlaceIsUnique(Chain(st), g, |a| + |w| + FirstIndex(s, g));
      assert PlacedIn(st, g, 2);
    } else {
      PlaceIsUnique(Chain(st), g, |a| + |w| + |s| + FirstIndex(h, g));
      assert PlacedIn(st, g, 3);
    }
  }

  lemma {:induction false} StartsGrow(st: StoreState, b: int, a: int)
    requires 0 <= b < a < 4
    ensures Start(st, b) + |ListAt(st, b)| <= Start(st, a)
  {
    if b + 1 < a {
      StartsGrow(st, b, a - 1);
    }
  }

  lemma PlacesInOrder(st: StoreState, g: Gid, h: Gid, a: int, b: int)
    requires 0 <= a < 4 && 0 <= b < 4 && g in Chain(st) && h in Chain(st)
    requires PlacedIn(st, g, a) && PlacedIn(st, h, b) && FirstIndex(Chain(st), g) < FirstIndex(Chain(st), h)
    ensures a < b || (a == b && FirstIndex(ListAt(st, a), g) < FirstIndex(ListAt(st, a), h))
  {
    if b < a {
      StartsGrow(st, b, a);
    }
  }

  /** A queue view shows active tasks first, then waiting, stopped and history-only ones, each list in its order. */
  lemma QueueViewFollowsLists(st: StoreState, query: TaskListQuery, i: nat, j: nat)
    requires st.Valid() && query.sort == DownloadSort(Queue, Ascending) && i < j < |VisibleGids(st, query)|
    ensures var (g, h) := (VisibleGids(st, query)[i], VisibleGids(st, query)[j]);
            exists a, b :: 0 <= a < 4 && 0 <= b < 4 && g in ListAt(st, a) && h in ListAt(st, b) &&
                           (a < b || (a == b && FirstIndex(ListAt(st, a), g) < FirstIndex(ListAt(st, a), h)))
  {
    var (g, h) := (VisibleGids(st, query)[i], VisibleGids(st, query)[j]);
    QueueViewKeepsOrder(st, query, i, j);
    ChainDistinct(st);
    ChainPlaces(st, g);
    ChainPlaces(st, h);
    var a :| 0 <= a < 4 && PlacedIn(st, g, a);
    var b :| 0 <= b < 4 && PlacedIn(st, h, b);
    PlacesInOrder(st, g, h, a, b);
  }

  /**
   The view of a sorted query is the only strictly ordered list of the matching gids, whatever algorithm
   produces it.
   */
  lemma ViewIsTheSortedPermutation(st: StoreState, query: TaskListQuery, any: seq<Gid>)
    requires query.sort.key != Queue
    requires InOrder(st, query.sort, any) && Elems(any) == set g | g in Chain(st) && Visible(st, query, g)
    ensures VisibleGids(st, query) == any
  {
    ViewIsSortedAndComplete(st, query);
    SortIsUnique(st, query.sort, VisibleGids(st, query), any);
  }

  lemma {:induction false} FilterIgnoresSort(st: StoreState, query: TaskListQuery, sort: DownloadSort, gids: seq<Gid>)
    ensures Filter(st, query.(sort := sort), gids) == Filter(st, query, gids)
  {
    if gids != [] {
      FilterIgnoresSort(st, query, sort, gids[..|gids| - 1]);
    }
  }

  lemma MatchingIgnoresSort(st: StoreState, query: TaskListQuery, sort: DownloadSort)
    ensures Matching(st, query.(sort := sort)) == Matching(st, query)
  {
    FilterIgnoresSort(st, query, sort, Dedup(Chain(st)));
  }

  lemma ReversedInOrder(st: StoreState, up: DownloadSort, s: seq<Gid>)
    requires up.direction == Ascending && InOrder(st, up, s)
    ensures InOrder(st, up.(direction := Descending), Reversed(s))
  {
    var (down, r) := (up.(direction := Descending), Reversed(s));
    forall i, j | 0 <= i < j < |r| ensures Compare(st, down, r[i], r[j]) == Less {
      var (a, b) := (s[|s| - 1 - j], s[|s| - 1 - i]);
      assert Compare(st, up, a, b) == Less;
      CompareIsStrictTotalOrder(st, up, a, b, a);
      assert Compare(st, down, b, a) == Compare(st, up, b, a).Reverse();
    }
  }

  /** Turning the direction around turns the view around, for every key. */
  lemma DescendingIsReversed(st: StoreState, query: TaskListQuery)
    requires query.sort.direction == Ascending
    ensures VisibleGids(st, query.(sort := query.sort.(direction := Descending))) == Reversed(VisibleGids(st, query))
  {
    var (up, down) := (query.sort, query.sort.(direction := Descending));
    var gids := Matching(st, query);
    MatchingIgnoresSort(st, query, down);
    if up.key != Queue {
      DedupDistinct(Chain(st));
      FilterFacts(st, query, Dedup(Chain(st)));
      SortGidsFacts(st, up, gids);
      SortGidsFacts(st, down, gids);
      var s := SortGids(st, up, gids);
      ReversedElems(s);
      ReversedInOrder(st, up, s);
      SortIsUnique(st, down, SortGids(st, down, gids), Reversed(s));
    }
  }

  ghost predicate PrecedesAt(a: string, b: string, k: nat) {
    k <= |a| && k < |b| && a[..k] == b[..k] && (k == |a| || a[k] < b[k])
  }

  /** `a` comes before `b` in a dictionary: they agree up to a place where `a` ends or has the smaller character. */
  ghost predicate Precedes(a: string, b: string) {
    exists k :: 0 <= k <= |a| && PrecedesAt(a, b, k)
  }

  lemma HeadSettles(a: string, b: string, k: nat)
    requires a != "" && b != "" && PrecedesAt(a, b, k)
    ensures a[0] <= b[0]
  {
    if k > 0 {
      assert a[..k][0] == b[..k][0];
    }
  }

  lemma PrecedesShift(a: string, b: string, k: nat)
    requires a != "" && b != "" && a[0] == b[0] && PrecedesAt(a[1..], b[1..], k)
    ensures PrecedesAt(a, b, k + 1)
  {
    assert a[..k + 1] == [a[0]] + a[1..][..k] && b[..k + 1] == [b[0]] + b[1..][..k];
  }

  lemma PrecedesUnshift(a: string, b: string, k: nat)
    requires a != "" && b != "" && a[0] == b[0] && PrecedesAt(a, b, k)
    ensures k > 0 && PrecedesAt(a[1..], b[1..], k - 1)
  {
    if k > 0 {
      assert a[1..][..k - 1] == a[..k][1..] && b[1..][..k - 1] == b[..k][1..];
    }
  }

  lemma {:induction false} TextIsDictionaryOrder(a: string, b: string)
    ensures CompareText(a, b) == Less <==> Precedes(a, b)
  {
    if a == "" {
      assert b != "" ==> PrecedesAt(a, b, 0);
    } else if b != "" {
      TextIsDictionaryOrder(a[1..], b[1..]);
      if a[0] == b[0] {
        if Precedes(a[1..], b[1..]) {
          var k :| 0 <= k <= |a[1..]| && PrecedesAt(a[1..], b[1..], k);
          PrecedesShift(a, b, k);
        }
        if Precedes(a, b) {
          var k :| 0 <= k <= |a| && PrecedesAt(a, b, k);
          PrecedesUnshift(a, b, k);
        }
      } else if a[0] < b[0] {
        assert PrecedesAt(a, b, 0);
      } else if Precedes(a, b) {
        var k :| 0 <= k <= |a| && PrecedesAt(a, b, k);
        HeadSettles(a, b, k);
      }
    }
  }

  /** Sorted by status, what is under way comes first, then what waits, then what has ended. */
  lemma StatusesInOrder()
    ensures StatusRank(Active) < StatusRank(Seeding) < StatusRank(Verifying) < StatusRank(Waiting) < StatusRank(Paused)
    ensures StatusRank(Paused) < StatusRank(Error) < StatusRank(Complete) < StatusRank(Removed) < StatusRank(Unknown)
  {
  }

  function Ratio(t: DownloadTask): real
    requires t.totalLength > 0
  {
    t.completedLength as real / t.totalLength as real
  }

  /** What an ascending list shows before what, for tasks with distinct keys. */
  ghost predicate Earlier(st: StoreState, key: SortKey, a: DownloadTask, b: DownloadTask) {
    match key
    case Queue => false
    case Name => Precedes(st.lower(a.displayName), st.lower(b.displayName))
    case ByStatus => StatusRank(a.status) < StatusRank(b.status)
    case Progress => b.totalLength > 0 && (a.totalLength == 0 || Ratio(a) < Ratio(b))
    case Speed => a.downloadSpeed < b.downloadSpeed
    case Size => a.totalLength < b.totalLength
  }

  lemma LessIsEarlier(st: StoreState, sort: DownloadSort, g: Gid, h: Gid)
    requires st.Valid() && sort.key != Queue && sort.direction == Ascending
    requires g in st.tasks && h in st.tasks && Compare(st, sort, g, h) == Less
    ensures Earlier(st, sort.key, st.tasks[g], st.tasks[h]) ||
            (!Earlier(st, sort.key, st.tasks[h], st.tasks[g]) && g < h)
  {
    var (a, b) := (st.tasks[g], st.tasks[h]);
    if sort.key == Name {
      TextIsDictionaryOrder(st.lower(a.displayName), st.lower(b.displayName));
      TextIsDictionaryOrder(st.lower(b.displayName), st.lower(a.displayName));
      TextLaws(st.lower(a.displayName), st.lower(b.displayName), "");
    } else if sort.key == Progress && a.totalLength > 0 && b.totalLength > 0 {
      ProgressIsRatio(a, b);
    }
  }

  /** In an ascending view no later task should have come earlier, and ties are in gid order. */
  lemma AscendingViewIsSorted(st: StoreState, query: TaskListQuery, i: nat, j: nat)
    requires st.Valid() && query.sort.key != Queue && query.sort.direction == Ascending
    requires i < j < |VisibleGids(st, query)|
    ensures var (g, h) := (VisibleGids(st, query)[i], VisibleGids(st, query)[j]);
            && g in st.tasks && h in st.tasks
            && (Earlier(st, query.sort.key, st.tasks[g], st.tasks[h]) ||
                (!Earlier(st, query.sort.key, st.tasks[h], st.tasks[g]) && g < h))
  {
    var v := VisibleGids(st, query);
    ViewIsSortedAndComplete(st, query);
    assert v[i] in Elems(v) && v[j] in Elems(v);
    LessIsEarlier(st, query.sort, v[i], v[j]);
  }

  /** The search index is only a cache: searching it is searching the current names. */
  lemma IndexedSearchIsNameScan(st: StoreState, query: TaskListQuery, g: Gid)
    requires st.Valid()
    ensures Visible(st, query, g) <==>
            g in st.tasks && query.filter.Matches(st.tasks[g].status) && CategoryMatches(st, g, query.categoryId) &&
            (Needle(st, query) == "" || Contains(st.lower(st.tasks[g].displayName), Needle(st, query)) ||
             Contains(Hex(g, 16), Needle(st, query)))
  {
  }

  // ----- Counting

  function Zero(): TaskCounts {
    TaskCounts(0, 0, 0, 0, 0, 0)
  }

  function Tally(c: TaskCounts, status: DownloadStatus): TaskCounts {
    var all := c.(all := c.all + 1);
    match status
    case Active => all.(active := c.active + 1)
    case Seeding => all.(active := c.active + 1)
    case Verifying => all.(active := c.active + 1)
    case Waiting => all.(waiting := c.waiting + 1)
    case Paused => all.(paused := c.paused + 1)
    case Complete => all.(completed := c.completed + 1)
    case Error => all.(failed := c.failed + 1)
    case Removed => all
    case Unknown => all
  }

  function CountOf(c: TaskCounts, filter: DownloadFilter): nat {
    match filter
    case AllTasks => c.all
    case ActiveTasks => c.active
    case WaitingTasks => c.waiting
    case PausedTasks => c.paused
    case CompletedTasks => c.completed
    case FailedTasks => c.failed
  }

  /** A query that shows every listed task of one filter. */
  predicate Plain(st: StoreState, query: TaskListQuery) {
    Needle(st, query) == "" && (query.categoryId.None? || query.categoryId.value == "")
  }

  function TallyAll(tasks: map<Gid, DownloadTask>, gids: seq<Gid>): TaskCounts {
    if gids == [] then Zero()
    else
      var rest, g := TallyAll(tasks, gids[..|gids| - 1]), gids[|gids| - 1];
      if g in tasks then Tally(rest, tasks[g].status) else rest
  }

  lemma {:induction false} TallyCountsFilter(st: StoreState, query: TaskListQuery, gids: seq<Gid>)
    requires Plain(st, query)
    ensures CountOf(TallyAll(st.tasks, gids), query.filter) == |Filter(st, query, gids)|
  {
    if gids != [] {
      TallyCountsFilter(st, query, gids[..|gids| - 1]);
    }
  }

  lemma ViewLength(st: StoreState, query: TaskListQuery)
    ensures |VisibleGids(st, query)| == |Matching(st, query)|
  {
    DedupDistinct(Chain(st));
    FilterFacts(st, query, Dedup(Chain(st)));
    SortGidsFacts(st, query.sort, Matching(st, query));
  }

  // ----- The methods of the store

  datatype TaskListView = TaskListView(sourceRevision: U64, visibleGids: seq<Gid>, query: TaskListQuery)

  function AddVisible(st: StoreState, query: TaskListQuery, visible: seq<Gid>, g: Gid): seq<Gid> {
    if Visible(st, query, g) then visible + [g] else visible
  }

  method AppendIfVisible(st: StoreState, query: TaskListQuery, visible: seq<Gid>, g: Gid) returns (r: seq<Gid>)
    ensures r == AddVisible(st, query, visible, g)
  {
    r := visible;
    if Visible(st, query, g) {
      r := r + [g];
    }
  }

  lemma DedupTurn(chain: seq<Gid>, k: nat)
    requires k < |chain|
    ensures Elems(chain[..k + 1]) == Elems(chain[..k]) + {chain[k]}
    ensures Dedup(chain[..k + 1])
            == if chain[k] in Elems(chain[..k]) then Dedup(chain[..k]) else Dedup(chain[..k]) + [chain[k]]
  {
    assert chain[..k + 1] == chain[..k] + [chain[k]];
    DedupSnoc(chain[..k], chain[k]);
    ElemsConcat(chain[..k], [chain[k]]);
  }

  lemma FilterTurn(st: StoreState, query: TaskListQuery, chain: seq<Gid>, k: nat)
    requires k < |chain|
    ensures Elems(chain[..k + 1]) == Elems(chain[..k]) + {chain[k]}
    ensures FirstVisible(st, query, chain[..k + 1])
            == if chain[k] in Elems(chain[..k]) then FirstVisible(st, query, chain[..k])
               else AddVisible(st, query, FirstVisible(st, query, chain[..k]), chain[k])
  {
    DedupTurn(chain, k);
    var d := Dedup(chain[..k]);
    assert (d + [chain[k]])[..|d|] == d;
  }

  method CollectMatching(st: StoreState, query: TaskListQuery) returns (visible: seq<Gid>)
    ensures visible == Matching(st, query)
  {
    var seen: set<Gid> := {};
    var chain := Chain(st);
    visible := [];
    for k := 0 to |chain|
      invariant seen == Elems(chain[..k])
      invariant visible == FirstVisible(st, query, chain[..k])
    {
      FilterTurn(st, query, chain, k);
      if chain[k] !in seen {
        seen := seen + {chain[k]};
        visible := AppendIfVisible(st, query, visible, chain[k]);
      }
    }
    assert chain[..|chain|] == chain;
  }

  method ViewStore(store: DownloadStore, query: TaskListQuery) returns (view: TaskListView)
    ensures view == TaskListView(store.revision, VisibleGids(store.State(), query), query)
  {
    var visible := CollectMatching(store.State(), query);
    if query.sort.key != Queue {
      visible := SortGids(store.State(), query.sort, visible);
    } else if query.sort.direction == Descending {
      visible := Reversed(visible);
    }
    view := TaskListView(store.revision, visible, query);
  }

  lemma TallyTurn(tasks: map<Gid, DownloadTask>, chain: seq<Gid>, k: nat)
    requires k < |chain|
    ensures Elems(chain[..k + 1]) == Elems(chain[..k]) + {chain[k]}
    ensures var before := TallyAll(tasks, Dedup(chain[..k]));
            TallyAll(tasks, Dedup(chain[..k + 1]))
            == if chain[k] in Elems(chain[..k]) || chain[k] !in tasks then before
               else Tally(before, tasks[chain[k]].status)
  {
    DedupTurn(chain, k);
    var d := Dedup(chain[..k]);
    assert (d + [chain[k]])[..|d|] == d;
  }

  method TallyStore(st: StoreState) returns (counts: TaskCounts)
    ensures counts == TallyAll(st.tasks, Dedup(Chain(st)))
  {
    counts := Zero();
    var seen: set<Gid> := {};
    var chain := Chain(st);
    for k := 0 to |chain|
      invariant seen == Elems(chain[..k])
      invariant counts == TallyAll(st.tasks, Dedup(chain[..k]))
    {
      TallyTurn(st.tasks, chain, k);
      if chain[k] !in seen {
        seen := seen + {chain[k]};
        if chain[k] in st.tasks {
          counts := Tally(counts, st.tasks[chain[k]].status);
        }
      }
    }
    assert chain[..|chain|] == chain;
  }

  /** One scan counts what six views would show. */
  method CountTasks(store: DownloadStore) returns (counts: TaskCounts)
    ensures forall query :: Plain(store.State(), query) ==>
                              CountOf(counts, query.filter) == |VisibleGids(store.State(), query)|
  {
    var st := store.State();
    counts := TallyStore(st);
    forall query | Plain(st, query) ensures CountOf(counts, query.filter) == |VisibleGids(st, query)| {
      ViewLength(st, query);
      TallyCountsFilter(st, query, Dedup(Chain(st)));
    }
  }
}
