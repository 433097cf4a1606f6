/** What the store promises over every operation and every run of operations. */
module StoreProps {
  import opened Prelude
  import opened Seqs
  import opened Tasks
  import opened Pages
  import opened StoreSpec

  datatype StoreOp =
    | Begin(session: EngineSession)
    | Reconcile(generation: U64, active: seq<TaskSnapshot>, waiting: seq<TaskSnapshot>)
    | Page(generation: U64, offset: U64, total: Option<U64>, page: seq<TaskSnapshot>)
    | Stat(generation: U64, stat: GlobalStat)
    | Target(generation: U64, gid: Gid, snapshot: Option<TaskSnapshot>)
    | Rename(generation: U64, gid: Gid, name: string)
    | Stale(generation: U64, stale: bool)
    | Remove(generation: U64, gids: seq<Gid>)
    | Forget(generation: U64, gids: seq<Gid>)
    | Seed(generation: U64, records: seq<HistoryRecord>)

  function Perform(st: StoreState, op: StoreOp): Outcome {
    match op
    case Begin(session) => BeginSession(st, session)
    case Reconcile(generation, active, waiting) => ReconcileLive(st, generation, active, waiting)
    case Page(generation, offset, total, page) => ApplyStoppedPage(st, generation, offset, total, page)
    case Stat(generation, stat) => UpdateGlobalStat(st, generation, stat)
    case Target(generation, gid, snapshot) => ApplyTaskSnapshot(st, generation, gid, snapshot)
    case Rename(generation, gid, name) => SetCustomName(st, generation, gid, name)
    case Stale(generation, stale) => SetStale(st, generation, stale)
    case Remove(generation, gids) => RemoveTasks(st, generation, gids)
    case Forget(generation, gids) => RemoveHistoryOnly(st, generation, gids)
    case Seed(generation, records) => SeedLocalHistory(st, generation, records)
  }

  /** A run: a rejected operation leaves the store as it was. */
  function Run(st: StoreState, ops: seq<StoreOp>): StoreState {
    if ops == [] then st
    else
      var before := Run(st, ops[..|ops| - 1]);
      match Perform(before, ops[|ops| - 1])
      case Applied(after, _) => after
      case Rejected(_) => before
  }

  // ----- The representation invariant

  lemma {:induction false} UpsertAllWellKeyed(tasks: map<Gid, DownloadTask>, snapshots: seq<TaskSnapshot>)
    requires forall g :: g in tasks ==> tasks[g].gid == g
    ensures forall g :: g in UpsertAll(tasks, snapshots) ==> UpsertAll(tasks, snapshots)[g].gid == g
  {
    if snapshots != [] {
      UpsertAllWellKeyed(tasks, snapshots[..|snapshots| - 1]);
    }
  }

  lemma LiveGids(active: seq<TaskSnapshot>, waiting: seq<TaskSnapshot>)
    requires Distinct(Gids(active + waiting))
    ensures Gids(active + waiting) == Gids(active) + Gids(waiting)
    ensures Distinct(Gids(active)) && Distinct(Gids(waiting))
    ensures Elems(Gids(active)) !! Elems(Gids(waiting))
    ensures Elems(Gids(active + waiting)) == Elems(Gids(active)) + Elems(Gids(waiting))
  {
    var all, a, w := Gids(active + waiting), Gids(active), Gids(waiting);
    assert all == a + w;
    forall i, j | 0 <= i < |a| && 0 <= j < |w| ensures a[i] != w[j] {
      assert all[i] != all[|a| + j];
    }
    forall i, j | 0 <= i < j < |w| ensures w[i] != w[j] {
      assert all[|a| + i] != all[|a| + j];
    }
    forall i, j | 0 <= i < j < |a| ensures a[i] != a[j] {
      assert all[i] != all[j];
    }
  }

  lemma ReconciledKeys(st: StoreState, active: seq<TaskSnapshot>, waiting: seq<TaskSnapshot>)
    requires st.Valid() && Distinct(Gids(active + waiting))
    ensures var (after, newLive) := (Reconciled(st, active, waiting).store, Elems(Gids(active + waiting)));
            && after.tasks.Keys == st.tasks.Keys + newLive - (st.Live() - newLive)
            && (forall g :: g in after.tasks ==> after.tasks[g].gid == g)
  {
    UpsertAllKeys(st.tasks, active + waiting);
    UpsertAllWellKeyed(st.tasks, active + waiting);
  }

  lemma ReconciledOrders(st: StoreState, active: seq<TaskSnapshot>, waiting: seq<TaskSnapshot>)
    requires st.Valid() && Distinct(Gids(active + waiting))
    ensures var (after, newLive) := (Reconciled(st, active, waiting).store, Elems(Gids(active + waiting)));
            && Distinct(after.activeOrder) && Distinct(after.waitingOrder) && Distinct(after.historyOrder)
            && Elems(after.activeOrder) !! Elems(after.waitingOrder) && after.Live() == newLive
            && Elems(after.stoppedOrder) == Elems(st.stoppedOrder) - newLive
            && Elems(after.historyOrder) == Elems(st.historyOrder) - newLive
  {
    LiveGids(active, waiting);
    FlattenPurge(st.stoppedPages, Elems(Gids(active + waiting)));
    WithoutDistinct(st.historyOrder, Elems(Gids(active + waiting)));
  }

  /** Listed gids keep their tasks when the live list is replaced. */
  lemma ListedStays(live: set<Gid>, stopped: set<Gid>, history: set<Gid>, keys: set<Gid>, newLive: set<Gid>)
    requires live + stopped + history <= keys && live !! stopped !! history
    ensures newLive + (stopped - newLive) + (history - newLive) <= keys + newLive - (live - newLive)
    ensures newLive !! (stopped - newLive) !! (history - newLive)
  {
  }

  lemma ReconciledValid(st: StoreState, active: seq<TaskSnapshot>, waiting: seq<TaskSnapshot>)
    requires st.Valid() && Distinct(Gids(active + waiting))
    ensures Reconciled(st, active, waiting).store.Valid()
  {
    ReconciledOrders(st, active, waiting);
    ReconciledKeys(st, active, waiting);
    ListedStays(st.Live(), Elems(st.stoppedOrder), Elems(st.historyOrder), st.tasks.Keys,
                Elems(Gids(active + waiting)));
  }

  lemma PagesWithSorted(pages: seq<Pages.Page>, offset: U64, total: Option<U64>, gids: seq<Gid>)
    requires Sorted(pages)
    ensures Sorted(PagesWith(pages, offset, total, gids))
    ensures Elems(Flatten(PagesWith(pages, offset, total, gids))) <= Elems(Flatten(pages)) + Elems(gids)
  {
    var page := Pages.Page(offset, gids);
    var inserted, r := Insert(pages, page), PagesWith(pages, offset, total, gids);
    InsertIsMapUpdate(pages, page);
    if total.Some? {
      BelowSorted(inserted, total.value);
    }
    FlattenElems(pages);
    FlattenElems(r);
    assert forall p :: p in r ==> p in inserted;
    assert forall p :: p in r ==> p == page || p in pages;
  }

  lemma PageAppliedValid(st: StoreState, offset: U64, total: Option<U64>, kept: seq<TaskSnapshot>)
    requires st.Valid() && Distinct(Gids(kept))
    ensures PageApplied(st, offset, total, kept).store.Valid()
  {
    var paged := Elems(Gids(kept));
    UpsertAllKeys(st.tasks, kept);
    UpsertAllWellKeyed(st.tasks, kept);
    WithoutDistinct(st.activeOrder, paged);
    WithoutDistinct(st.waitingOrder, paged);
    WithoutDistinct(st.historyOrder, paged);
    PagesWithSorted(st.stoppedPages, offset, total, Gids(kept));
  }

  lemma RemovedValid(st: StoreState, gids: seq<Gid>)
    requires st.Valid()
    ensures RemoveTasks(st, st.session.generation, gids).store.Valid()
  {
    var dropped := Elems(gids);
    WithoutDistinct(st.activeOrder, dropped);
    WithoutDistinct(st.waitingOrder, dropped);
    WithoutDistinct(st.historyOrder, dropped);
    FlattenPurge(st.stoppedPages, dropped);
  }

  lemma {:induction false} SeedRowsFacts(st: StoreState, records: seq<HistoryRecord>)
    ensures Elems(RowGids(SeedRows(st, records))) !! st.Live()
    ensures Elems(RowGids(SeedRows(st, records))) !! Elems(st.stoppedOrder)
  {
    if records != [] {
      var init, last := records[..|records| - 1], records[|records| - 1];
      SeedRowsFacts(st, init);
      if Seeds(st, last) {
        assert RowGids(SeedRows(st, records)) == RowGids(SeedRows(st, init)) + [last.gid];
        ElemsConcat(RowGids(SeedRows(st, init)), [last.gid]);
      }
    }
  }

  lemma {:induction false} SeedTasksWellKeyed(tasks: map<Gid, DownloadTask>, rows: seq<HistoryRecord>)
    requires forall g :: g in tasks ==> tasks[g].gid == g
    ensures forall g :: g in SeedTasks(tasks, rows) ==> SeedTasks(tasks, rows)[g].gid == g
  {
    if rows != [] {
      SeedTasksWellKeyed(tasks, rows[..|rows| - 1]);
    }
  }

  lemma SeededValid(st: StoreState, records: seq<HistoryRecord>)
    requires st.Valid()
    ensures SeedLocalHistory(st, st.session.generation, records).store.Valid()
  {
    var rows := SeedRows(st, records);
    SeedRowsFacts(st, records);
    SeedTasksWellKeyed(st.tasks, rows);
    DedupDistinct(RowGids(rows));
  }

  lemma KeptDistinct(offset: U64, total: Option<U64>, page: seq<TaskSnapshot>)
    requires Distinct(Gids(page))
    ensures Distinct(Gids(Kept(offset, total, page)))
  {
    var kept := Kept(offset, total, page);
    assert forall i :: 0 <= i < |kept| ==> Gids(kept)[i] == Gids(page)[i];
  }

  lemma TargetValid(st: StoreState, gid: Gid, snapshot: Option<TaskSnapshot>)
    requires st.Valid() && ApplyTaskSnapshot(st, st.session.generation, gid, snapshot).Applied?
    ensures ApplyTaskSnapshot(st, st.session.generation, gid, snapshot).store.Valid()
  {
    if snapshot.Some? {
      WithoutDistinct(st.historyOrder, {gid});
    } else {
      RemovedValid(st, [gid]);
    }
  }

  lemma ForgottenValid(st: StoreState, gids: seq<Gid>)
    requires st.Valid()
    ensures RemoveHistoryOnly(st, st.session.generation, gids).store.Valid()
  {
    WithoutDistinct(st.historyOrder, Elems(gids));
  }

  lemma RenamedValid(st: StoreState, gid: Gid, name: string)
    requires st.Valid() && gid in st.tasks
    ensures SetCustomName(st, st.session.generation, gid, name).store.Valid()
  {
  }

  lemma PageValid(st: StoreState, offset: U64, total: Option<U64>, page: seq<TaskSnapshot>)
    requires st.Valid() && ApplyStoppedPage(st, st.session.generation, offset, total, page).Applied?
    ensures ApplyStoppedPage(st, st.session.generation, offset, total, page).store.Valid()
  {
    KeptDistinct(offset, total, page);
    PageAppliedValid(st, offset, total, Kept(offset, total, page));
  }

  /** Operations that leave every list and every task alone. */
  lemma FlagsValid(st: StoreState, op: StoreOp)
    requires st.Valid() && Perform(st, op).Applied? && (op.Begin? || op.Stat? || op.Stale?)
    ensures Perform(st, op).store.Valid()
  {
  }

  /** Every operation keeps the representation invariant. */
  lemma PerformValid(st: StoreState, op: StoreOp)
    requires st.Valid() && Perform(st, op).Applied?
    ensures Perform(st, op).store.Valid()
  {
    match op {
      case Reconcile(_, active, waiting) => ReconciledValid(st, active, waiting);
      case Page(_, offset, total, page) => PageValid(st, offset, total, page);
      case Target(_, gid, snapshot) => TargetValid(st, gid, snapshot);
      case Rename(_, gid, name) => RenamedValid(st, gid, name);
      case Remove(_, gids) => RemovedValid(st, gids);
      case Forget(_, gids) => ForgottenValid(st, gids);
      case Seed(_, records) => SeededValid(st, records);
      case _ => FlagsValid(st, op);
    }
  }

  /** In every reachable store, the representation invariant holds. */
  lemma {:induction false} ReachableValid(session: EngineSession, lower: string -> string, ops: seq<StoreOp>)
    ensures Run(NewStore(session, lower), ops).Valid()
  {
    if ops != [] {
      var init := ops[..|ops| - 1];
      ReachableValid(session, lower, init);
      var before := Run(NewStore(session, lower), init);
      if Perform(before, ops[|ops| - 1]).Applied? {
        PerformValid(before, ops[|ops| - 1]);
      }
    }
  }
}
