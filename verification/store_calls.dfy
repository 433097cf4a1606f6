/** Which calls the store accepts, with which error it refuses the others, and what an accepted one leaves. */
module StoreCalls {
  import opened Prelude
  import opened Seqs
  import opened Tasks
  import opened Pages
  import opened StoreSpec
  import opened StoreProps
  import opened StoreDiff

  // ----- Acceptance

  /** The call carries the store's generation; a new session brings its own. */
  predicate Current(st: StoreState, op: StoreOp) {
    op.Begin? || op.generation == st.session.generation
  }

  /** The arguments are ones the source takes. */
  ghost predicate InOrder(st: StoreState, op: StoreOp) {
    match op
    case Begin(session) => session.profileId == st.session.profileId
    case Reconcile(_, active, waiting) => Distinct(Gids(active + waiting))
    case Page(_, offset, total, page) => Distinct(Gids(page)) && (total.Some? ==> offset <= total.value)
    case Target(_, gid, snapshot) => snapshot.Some? ==> snapshot.value.gid == gid
    case Rename(_, gid, _) => gid in st.tasks
    case _ => true
  }

  /** A call is accepted exactly when it is current and its arguments are in order. */
  lemma AcceptedIff(st: StoreState, op: StoreOp)
    ensures Perform(st, op).Applied? <==> Current(st, op) && InOrder(st, op)
  {
  }

  ghost predicate RepeatAt(gids: seq<Gid>, g: Gid, j: int) {
    0 <= j < |gids| && gids[j] == g && g in gids[..j] && Distinct(gids[..j])
  }

  /** The first place where a gid comes a second time. */
  ghost predicate FirstRepeat(gids: seq<Gid>, g: Gid) {
    exists j :: RepeatAt(gids, g, j)
  }

  lemma {:induction false} FirstDuplicateRepeats(gids: seq<Gid>)
    ensures FirstDuplicate(gids).Some? ==> FirstRepeat(gids, FirstDuplicate(gids).value)
  {
    if gids != [] {
      var init := gids[..|gids| - 1];
      FirstDuplicateRepeats(init);
      if FirstDuplicate(init).Some? {
        var j :| RepeatAt(init, FirstDuplicate(init).value, j);
        assert init[..j] == gids[..j];
        assert RepeatAt(gids, FirstDuplicate(init).value, j);
      } else if FirstDuplicate(gids).Some? {
        assert RepeatAt(gids, gids[|init|], |init|);
      }
    }
  }

  /** The error of a current call that is refused. */
  ghost predicate Refuses(st: StoreState, op: StoreOp, error: StoreError) {
    match op
    case Begin(session) => error == WrongProfile(st.session.profileId, session.profileId)
    case Reconcile(_, active, waiting) => error.DuplicateGid? && FirstRepeat(Gids(active + waiting), error.gid)
    case Page(_, offset, total, page) =>
      if Distinct(Gids(page)) then total.Some? && error == InvalidStoppedPage(offset, total.value)
      else error.DuplicateGid? && FirstRepeat(Gids(page), error.gid)
    case Target(_, gid, snapshot) => snapshot.Some? && error == TargetedGidMismatch(gid, snapshot.value.gid)
    case Rename(_, gid, _) => error == TaskNotFound(gid)
    case _ => false
  }

  lemma RefusedWith(st: StoreState, op: StoreOp)
    requires Perform(st, op).Rejected?
    ensures if Current(st, op) then Refuses(st, op, Perform(st, op).error)
            else Perform(st, op).error == StaleGeneration(st.session.generation, op.generation)
  {
    match op {
      case Reconcile(_, active, waiting) => FirstDuplicateRepeats(Gids(active + waiting));
      case Page(_, _, _, page) => FirstDuplicateRepeats(Gids(page));
      case _ =>
    }
  }

  // ----- A new store

  /** A new store is empty, fresh, and may ask for its first page. */
  lemma NewStoreIsEmpty(session: EngineSession, lower: string -> string)
    ensures var st := NewStore(session, lower);
            && st.Valid() && st.session == session && st.tasks == map[] && st.categoryByGid == map[]
            && st.Listed() == {} && st.stoppedPages == [] && st.stoppedTotal == None && CanLoadMore(st)
            && st.globalStat == GlobalStat(0, 0, 0, 0, 0) && !st.stale && st.revision == 0
  {
  }

  // ----- The lists afterwards

  /** The gids an operation takes out of the history rows, seeding aside. */
  function TakenRows(op: StoreOp): set<Gid> {
    match op
    case Reconcile(_, active, waiting) => Elems(Gids(active)) + Elems(Gids(waiting))
    case Page(_, offset, total, page) =>
      if total.Some? && offset > total.value then {} else Elems(Held(offset, total, page))
    case Target(_, gid, _) => {gid}
    case Remove(_, gids) => Elems(gids)
    case Forget(_, gids) => Elems(gids)
    case _ => {}
  }

  lemma LiveElems(active: seq<TaskSnapshot>, waiting: seq<TaskSnapshot>)
    ensures Elems(Gids(active + waiting)) == Elems(Gids(active)) + Elems(Gids(waiting))
  {
    assert Gids(active + waiting) == Gids(active) + Gids(waiting);
    ElemsConcat(Gids(active), Gids(waiting));
  }

  /** The history rows keep their order; an operation other than seeding only takes its gids out. */
  lemma HistoryOrderAfter(st: StoreState, op: StoreOp)
    requires Perform(st, op).Applied? && !op.Seed?
    ensures Perform(st, op).store.historyOrder == Without(st.historyOrder, TakenRows(op))
  {
    match op {
      case Reconcile(_, active, waiting) => LiveElems(active, waiting);
      case Page(_, offset, total, page) => KeptIsHeld(offset, total, page);
      case Target(_, gid, None) => assert Elems([gid]) == {gid};
      case Remove(_, _) =>
      case Forget(_, _) =>
      case Target(_, _, Some(_)) =>
      case _ => WithoutNothing(st.historyOrder, {});
    }
  }

  /** A page takes its gids out of both live lists, which keep their order. */
  lemma LiveOrdersAfterPage(st: StoreState, generation: U64, offset: U64, total: Option<U64>, page: seq<TaskSnapshot>)
    requires ApplyStoppedPage(st, generation, offset, total, page).Applied?
    ensures total.Some? ==> offset <= total.value
    ensures var r := ApplyStoppedPage(st, generation, offset, total, page);
            var held := Held(offset, total, page);
            && r.store.activeOrder == Without(st.activeOrder, Elems(held))
            && r.store.waitingOrder == Without(st.waitingOrder, Elems(held))
            && r.patch.inserted == Without(held, st.tasks.Keys)
  {
    KeptIsHeld(offset, total, page);
  }

  /** A patch of the given generation that marks no order twice. */
  ghost predicate Headed(p: StorePatch, generation: U64) {
    p.generation == generation && Distinct(p.orderChanges)
  }

  lemma MarkHeaded(p: StorePatch, generation: U64, collection: TaskCollection, changed: bool)
    requires Headed(p, generation)
    ensures Headed(p.Mark(collection, changed), generation)
  {
  }

  lemma MarkedHeaded(p: StorePatch, generation: U64, a: bool, b: bool, c: bool, d: bool)
    requires p.generation == generation && p.orderChanges == []
    ensures Headed(p.Mark(StoppedList, a).Mark(ActiveList, b).Mark(WaitingList, c).Mark(StoppedList, d), generation)
  {
    MarkHeaded(p, generation, StoppedList, a);
    MarkHeaded(p.Mark(StoppedList, a), generation, ActiveList, b);
    MarkHeaded(p.Mark(StoppedList, a).Mark(ActiveList, b), generation, WaitingList, c);
    MarkHeaded(p.Mark(StoppedList, a).Mark(ActiveList, b).Mark(WaitingList, c), generation, StoppedList, d);
  }

  lemma RemovedHeaded(st: StoreState, generation: U64, gids: seq<Gid>)
    requires RemoveTasks(st, generation, gids).Applied?
    ensures Headed(RemoveTasks(st, generation, gids).patch, generation)
  {
    var after := RemoveTasks(st, generation, gids).store;
    MarkedHeaded(NewPatch(generation, st.revision).(removed := st.tasks.Keys * Elems(gids)), generation,
                 st.historyOrder != after.historyOrder, st.activeOrder != after.activeOrder,
                 st.waitingOrder != after.waitingOrder, st.stoppedOrder != after.stoppedOrder);
  }

  lemma ReconciledHeaded(st: StoreState, active: seq<TaskSnapshot>, waiting: seq<TaskSnapshot>)
    ensures Headed(Reconciled(st, active, waiting).patch, st.session.generation)
  {
  }

  lemma PagedHeaded(st: StoreState, offset: U64, total: Option<U64>, kept: seq<TaskSnapshot>)
    ensures Headed(PageApplied(st, offset, total, kept).patch, st.session.generation)
  {
  }

  lemma OthersHeaded(st: StoreState, op: StoreOp)
    requires Perform(st, op).Applied? && !op.Reconcile? && !op.Page? && !op.Remove? &&
             !(op.Target? && op.snapshot.None?)
    ensures Headed(Perform(st, op).patch, Perform(st, op).store.session.generation)
  {
  }

  /** Every patch carries the generation of the store it leaves, and marks no order twice. */
  lemma PatchHeader(st: StoreState, op: StoreOp)
    requires Perform(st, op).Applied?
    ensures Headed(Perform(st, op).patch, Perform(st, op).store.session.generation)
  {
    PerformTouchesOnly(st, op);
    match op {
      case Reconcile(_, active, waiting) => ReconciledHeaded(st, active, waiting);
      case Page(_, offset, total, page) => PagedHeaded(st, offset, total, Kept(offset, total, page));
      case Remove(generation, gids) => RemovedHeaded(st, generation, gids);
      case Target(generation, gid, None) => RemovedHeaded(st, generation, [gid]);
      case _ => OthersHeaded(st, op);
    }
  }

  /** The marks of a patch whose lists come in this order. */
  function InTurn(first: TaskCollection, a: bool, second: TaskCollection, b: bool, third: TaskCollection,
                  c: bool): seq<TaskCollection> {
    (if a then [first] else []) + (if b then [second] else []) + (if c then [third] else [])
  }

  lemma LiveMarks(p: StorePatch, removed: set<Gid>, stopped: bool, active: bool, waiting: bool)
    requires p.orderChanges == []
    ensures p.Mark(StoppedList, stopped).(removed := removed).Mark(ActiveList, active).Mark(WaitingList, waiting)
            .orderChanges == InTurn(StoppedList, stopped, ActiveList, active, WaitingList, waiting)
  {
  }

  lemma ReconcileMarks(st: StoreState, active: seq<TaskSnapshot>, waiting: seq<TaskSnapshot>)
    ensures var r := Reconciled(st, active, waiting);
            r.patch.orderChanges == InTurn(StoppedList, st.stoppedOrder != r.store.stoppedOrder,
                                           ActiveList, st.activeOrder != r.store.activeOrder,
                                           WaitingList, st.waitingOrder != r.store.waitingOrder)
  {
    var (gids, upserted) := (Gids(active + waiting), UpsertAll(st.tasks, active + waiting));
    UpsertAllKeys(st.tasks, active + waiting);
    var after := Reconciled(st, active, waiting).store;
    LiveMarks(NewPatch(st.session.generation, st.revision)
              .(inserted := Without(gids, st.tasks.Keys), updated := Updates(st.tasks, upserted, gids)),
              st.Live() - Elems(gids), st.stoppedOrder != after.stoppedOrder,
              st.activeOrder != after.activeOrder, st.waitingOrder != after.waitingOrder);
  }

  lemma PageMarksInTurn(st: StoreState, offset: U64, total: Option<U64>, kept: seq<TaskSnapshot>)
    ensures var r := PageApplied(st, offset, total, kept);
            r.patch.orderChanges == InTurn(ActiveList, st.activeOrder != r.store.activeOrder,
                                           WaitingList, st.waitingOrder != r.store.waitingOrder,
                                           StoppedList, st.stoppedOrder != r.store.stoppedOrder)
  {
  }

  lemma RemovalMarks(p: StorePatch, history: bool, active: bool, waiting: bool, stopped: bool)
    requires p.orderChanges == []
    ensures var q := p.Mark(StoppedList, history).Mark(ActiveList, active).Mark(WaitingList, waiting)
                     .Mark(StoppedList, stopped);
            q.orderChanges == if history then InTurn(StoppedList, true, ActiveList, active, WaitingList, waiting)
                              else InTurn(ActiveList, active, WaitingList, waiting, StoppedList, stopped)
  {
  }

  lemma RemovedInTurn(st: StoreState, generation: U64, gids: seq<Gid>)
    requires RemoveTasks(st, generation, gids).Applied?
    ensures var r := RemoveTasks(st, generation, gids);
            r.patch.orderChanges == if st.historyOrder != r.store.historyOrder
                                    then InTurn(StoppedList, true, ActiveList, st.activeOrder != r.store.activeOrder,
                                                WaitingList, st.waitingOrder != r.store.waitingOrder)
                                    else InTurn(ActiveList, st.activeOrder != r.store.activeOrder,
                                                WaitingList, st.waitingOrder != r.store.waitingOrder,
                                                StoppedList, st.stoppedOrder != r.store.stoppedOrder)
  {
    var after := RemoveTasks(st, generation, gids).store;
    RemovalMarks(NewPatch(generation, st.revision).(removed := st.tasks.Keys * Elems(gids)),
                 st.historyOrder != after.historyOrder, st.activeOrder != after.activeOrder,
                 st.waitingOrder != after.waitingOrder, st.stoppedOrder != after.stoppedOrder);
  }

  /**
   A patch lists its marks in the order in which the call makes them: a live list the stopped list first, a page
   last, and a removal first if it took out history rows.
   */
  lemma MarksInTurn(st: StoreState, op: StoreOp)
    requires Perform(st, op).Applied? && (op.Reconcile? || op.Page? || op.Remove?)
    ensures var r := Perform(st, op);
            var (active, waiting) := (st.activeOrder != r.store.activeOrder, st.waitingOrder != r.store.waitingOrder);
            var stopped := st.stoppedOrder != r.store.stoppedOrder;
            r.patch.orderChanges
            == if op.Reconcile? then InTurn(StoppedList, stopped, ActiveList, active, WaitingList, waiting)
               else if op.Remove? && st.historyOrder != r.store.historyOrder
               then InTurn(StoppedList, true, ActiveList, active, WaitingList, waiting)
               else InTurn(ActiveList, active, WaitingList, waiting, StoppedList, stopped)
  {
    match op {
      case Reconcile(_, active, waiting) => ReconcileMarks(st, active, waiting);
      case Page(_, offset, total, page) => PageMarksInTurn(st, offset, total, Kept(offset, total, page));
      case Remove(generation, gids) => RemovedInTurn(st, generation, gids);
    }
  }

  /** Field patches come in the order of the snapshots. */
  lemma {:induction false} UpdatesInOrder(before: map<Gid, DownloadTask>, after: map<Gid, DownloadTask>, gids: seq<Gid>)
    requires Elems(gids) <= after.Keys
    ensures UpdatedGids(Updates(before, after, gids)) == Without(gids, after.Keys - Moved(before, after))
  {
    if gids != [] {
      var init, g := gids[..|gids| - 1], gids[|gids| - 1];
      assert gids == init + [g];
      ElemsConcat(init, [g]);
      UpdatesInOrder(before, after, init);
      WithoutSnoc(init, g, after.Keys - Moved(before, after));
    }
  }

  // ----- History rows

  /** The record may become a row: of this profile, finished or failed, and in none of the engine's lists. */
  predicate Admits(st: StoreState, r: HistoryRecord) {
    && r.profileId == st.session.profileId
    && (r.status == Complete || r.status == Error)
    && r.gid !in st.activeOrder && r.gid !in st.waitingOrder && r.gid !in st.stoppedOrder
  }

  /** The task shows the record, with nothing in transfer. */
  predicate ShowsRecord(t: DownloadTask, r: HistoryRecord) {
    && t.gid == r.gid && t.status == r.status && t.displayName == r.displayName && t.nameState == Resolved
    && t.totalLength == r.totalLength && t.completedLength == r.completedLength && t.error == r.error
    && t.metadata.directory == r.directory && t.metadata.primaryUri == r.primaryUri
    && t.metadata.infoHash == r.infoHash && t.metadata.sourceKind == r.sourceKind
    && t.metadata.fileCount == 0 && t.metadata.followedBy == [] && t.metadata.belongsTo == None
    && t.uploadLength == 0 && t.downloadSpeed == 0 && t.uploadSpeed == 0 && t.connections == 0 && t.revision == 1
  }

  /** The last record of its gid that may become a row. */
  predicate LastAdmitted(st: StoreState, records: seq<HistoryRecord>, k: nat) {
    k < |records| && Admits(st, records[k]) &&
    forall j | k < j < |records| :: Admits(st, records[j]) ==> records[j].gid != records[k].gid
  }

  lemma AdmitsIsSeeds(st: StoreState, r: HistoryRecord)
    ensures Admits(st, r) <==> Seeds(st, r)
  {
  }

  lemma {:induction false} LastRowIsLastAdmitted(st: StoreState, records: seq<HistoryRecord>, k: nat)
    requires LastAdmitted(st, records, k)
    ensures records[k].gid in RowGids(SeedRows(st, records))
    ensures LastRow(SeedRows(st, records), records[k].gid) == records[k]
  {
    var init, last := records[..|records| - 1], records[|records| - 1];
    var rows := SeedRows(st, init);
    AdmitsIsSeeds(st, last);
    if Seeds(st, last) {
      assert (rows + [last])[..|rows|] == rows;
      assert RowGids(rows + [last])[|rows|] == last.gid;
    }
    if k < |init| {
      assert LastAdmitted(st, init, k);
      LastRowIsLastAdmitted(st, init, k);
      if Seeds(st, last) {
        assert RowGids(rows + [last]) == RowGids(rows) + [last.gid];
      }
    }
  }

  /** A seeded task shows the last record of its gid that may become a row, field by field, under its own name. */
  lemma SeededShowsRecord(st: StoreState, generation: U64, records: seq<HistoryRecord>, k: nat)
    requires SeedLocalHistory(st, generation, records).Applied? && LastAdmitted(st, records, k)
    ensures var (after, r) := (SeedLocalHistory(st, generation, records).store, records[k]);
            && r.gid in after.tasks && ShowsRecord(after.tasks[r.gid], r)
            && r.gid in after.historyOrder && r.gid in after.searchIndex
            && after.searchIndex[r.gid] == st.lower(r.displayName)
  {
    LastRowIsLastAdmitted(st, records, k);
    SeedTouchesRowsOnly(st, generation, records, records[k].gid);
  }

  lemma {:induction false} RowIffAdmitted(st: StoreState, records: seq<HistoryRecord>, g: Gid)
    ensures g in RowGids(SeedRows(st, records)) <==>
            exists k :: 0 <= k < |records| && Admits(st, records[k]) && records[k].gid == g
  {
    if records != [] {
      var init, last := records[..|records| - 1], records[|records| - 1];
      assert records == init + [last];
      RowIffAdmitted(st, init, g);
      AdmitsIsSeeds(st, last);
      assert RowGids(SeedRows(st, init) + [last]) == RowGids(SeedRows(st, init)) + [last.gid];
      if k :| 0 <= k < |init| && Admits(st, init[k]) && init[k].gid == g {
        assert records[k] == init[k];
      }
      if k :| 0 <= k < |records| && Admits(st, records[k]) && records[k].gid == g {
        assert k < |init| ==> init[k] == records[k];
      }
    }
  }

  /** The history rows are exactly the admitted gids, and no other task changes. */
  lemma SeededRowsAreAdmitted(st: StoreState, generation: U64, records: seq<HistoryRecord>, g: Gid)
    requires SeedLocalHistory(st, generation, records).Applied?
    ensures var after := SeedLocalHistory(st, generation, records).store;
            && (g in after.historyOrder <==>
                exists k :: 0 <= k < |records| && Admits(st, records[k]) && records[k].gid == g)
            && (g !in after.historyOrder ==> (g in after.tasks <==> g in st.tasks))
            && (g !in after.historyOrder && g in st.tasks ==> after.tasks[g] == st.tasks[g])
  {
    RowIffAdmitted(st, records, g);
    SeedTouchesRowsOnly(st, generation, records, g);
  }

  /** The first record of a gid that may become a row. */
  predicate FirstAdmitted(st: StoreState, records: seq<HistoryRecord>, k: int, g: Gid) {
    0 <= k < |records| && Admits(st, records[k]) && records[k].gid == g &&
    forall j | 0 <= j < k :: Admits(st, records[j]) ==> records[j].gid != g
  }

  /** Where a row comes from. */
  lemma {:induction false} RowSource(st: StoreState, records: seq<HistoryRecord>, i: nat) returns (k: nat)
    requires i < |SeedRows(st, records)|
    ensures k < |records| && records[k] == SeedRows(st, records)[i] && Admits(st, records[k])
    ensures |SeedRows(st, records[..k])| == i && SeedRows(st, records[..k]) == SeedRows(st, records)[..i]
  {
    var init, last := records[..|records| - 1], records[|records| - 1];
    AdmitsIsSeeds(st, last);
    var rows := SeedRows(st, init);
    if i < |rows| {
      k := RowSource(st, init, i);
      assert records[..k] == init[..k];
      assert SeedRows(st, records)[..i] == rows[..i];
    } else {
      k := |init|;
      assert records[..k] == init;
    }
  }

  lemma {:induction false} RowsGrow(st: StoreState, records: seq<HistoryRecord>, k: nat)
    requires k <= |records|
    ensures |SeedRows(st, records[..k])| <= |SeedRows(st, records)|
  {
    if k == |records| {
      assert records[..k] == records;
    } else {
      assert records[..|records| - 1][..k] == records[..k];
      RowsGrow(st, records[..|records| - 1], k);
    }
  }

  lemma RowSourcesFollow(st: StoreState, records: seq<HistoryRecord>, a: nat, b: nat)
    requires a <= |records| && b <= |records|
    requires |SeedRows(st, records[..a])| < |SeedRows(st, records[..b])|
    ensures a < b
  {
    if b <= a {
      assert records[..a][..b] == records[..b];
      RowsGrow(st, records[..a], b);
    }
  }

  lemma FirstRowIsFirstAdmitted(st: StoreState, records: seq<HistoryRecord>, k: nat, g: Gid, p: nat)
    requires k < |records| && Admits(st, records[k]) && records[k].gid == g
    requires p <= |SeedRows(st, records)| && SeedRows(st, records[..k]) == SeedRows(st, records)[..p]
    requires g !in RowGids(SeedRows(st, records))[..p]
    ensures FirstAdmitted(st, records, k, g)
  {
    var rows := SeedRows(st, records);
    assert RowGids(rows)[..p] == RowGids(rows[..p]);
    RowIffAdmitted(st, records[..k], g);
    forall j | 0 <= j < k && Admits(st, records[j]) ensures records[j].gid != g {
      assert records[..k][j] == records[j];
    }
  }

  /** The rows come in the order in which the records first name them. */
  lemma SeededOrder(st: StoreState, generation: U64, records: seq<HistoryRecord>, i: nat, j: nat)
    requires SeedLocalHistory(st, generation, records).Applied?
    requires i < j < |SeedLocalHistory(st, generation, records).store.historyOrder|
    ensures var order := SeedLocalHistory(st, generation, records).store.historyOrder;
            exists a, b :: a < b && FirstAdmitted(st, records, a, order[i]) && FirstAdmitted(st, records, b, order[j])
  {
    var rows := SeedRows(st, records);
    var gids := RowGids(rows);
    var order := Dedup(gids);
    DedupOrder(gids, i, j);
    var (p, q) := (FirstIndex(gids, order[i]), FirstIndex(gids, order[j]));
    var a := RowSource(st, records, p);
    var b := RowSource(st, records, q);
    RowSourcesFollow(st, records, a, b);
    FirstRowIsFirstAdmitted(st, records, a, order[i], p);
    FirstRowIsFirstAdmitted(st, records, b, order[j], q);
  }

  // ----- The page itself

  lemma ListedByPage(pages: seq<Pages.Page>, own: Pages.Page, g: Gid)
    requires own in pages && g in own.gids
    ensures g in Dedup(Flatten(pages))
  {
    FlattenElems(pages);
    assert g in Elems(Flatten(pages)) && g in Elems(Dedup(Flatten(pages)));
  }

  lemma PageHolds(st: StoreState, generation: U64, offset: U64, total: Option<U64>, page: seq<TaskSnapshot>, k: nat)
    requires st.Valid() && ApplyStoppedPage(st, generation, offset, total, page).Applied?
    requires k < |page| && (total.Some? ==> offset + k < total.value)
    ensures var after := ApplyStoppedPage(st, generation, offset, total, page).store;
            page[k].gid in after.stoppedOrder
  {
    var own := Pages.Page(offset, Held(offset, total, page));
    assert own.gids[k] == page[k].gid;
    PageIsStored(st, generation, offset, total, page);
    ListedByPage(ApplyStoppedPage(st, generation, offset, total, page).store.stoppedPages, own, page[k].gid);
  }

  lemma PageIsNotLive(st: StoreState, generation: U64, offset: U64, total: Option<U64>, page: seq<TaskSnapshot>, k: nat)
    requires st.Valid() && ApplyStoppedPage(st, generation, offset, total, page).Applied?
    requires k < |page| && (total.Some? ==> offset + k < total.value)
    ensures page[k].gid !in ApplyStoppedPage(st, generation, offset, total, page).store.Live()
  {
    assert Held(offset, total, page)[k] == page[k].gid;
    PageMovesTasks(st, generation, offset, total, page);
  }

  /** Every task of a page that is within the total is stopped, is not live, and shows what was fetched. */
  lemma PageShows(st: StoreState, generation: U64, offset: U64, total: Option<U64>, page: seq<TaskSnapshot>, k: nat)
    requires st.Valid() && ApplyStoppedPage(st, generation, offset, total, page).Applied?
    requires k < |page| && (total.Some? ==> offset + k < total.value)
    ensures var after := ApplyStoppedPage(st, generation, offset, total, page).store;
            && page[k].gid in after.tasks && ShowsTransfer(after.tasks[page[k].gid], page[k])
            && page[k].gid in after.stoppedOrder && page[k].gid !in after.Live()
  {
    PageHolds(st, generation, offset, total, page, k);
    PageIsNotLive(st, generation, offset, total, page, k);
    PageTakesSnapshots(st, generation, offset, total, page, k);
  }

  // ----- What a call leaves alone

  /** The gids whose tasks a call may touch. */
  function Named(st: StoreState, op: StoreOp): set<Gid> {
    match op
    case Reconcile(_, active, waiting) => st.Live() + Elems(Gids(active + waiting))
    case Page(_, _, _, _) => TakenRows(op)
    case Target(_, gid, _) => {gid}
    case Rename(_, gid, _) => {gid}
    case Remove(_, gids) => Elems(gids)
    case Forget(_, gids) => Elems(gids) * Elems(st.historyOrder)
    case Seed(_, records) => set r | r in records && Admits(st, r) :: r.gid
    case _ => {}
  }

  ghost predicate Stays(before: map<Gid, DownloadTask>, after: map<Gid, DownloadTask>, g: Gid) {
    (g in after <==> g in before) && (g in before ==> after[g] == before[g])
  }

  lemma UpsertLeaves(tasks: map<Gid, DownloadTask>, snapshots: seq<TaskSnapshot>, g: Gid)
    requires Distinct(Gids(snapshots)) && g !in Elems(Gids(snapshots))
    ensures Stays(tasks, UpsertAll(tasks, snapshots), g)
  {
    UpsertAllPointwise(tasks, snapshots);
    UpsertAllKeys(tasks, snapshots);
  }

  lemma ReconcileLeaves(st: StoreState, generation: U64, active: seq<TaskSnapshot>, waiting: seq<TaskSnapshot>, g: Gid)
    requires ReconcileLive(st, generation, active, waiting).Applied?
    requires g !in st.Live() && g !in Elems(Gids(active + waiting))
    ensures Stays(st.tasks, ReconcileLive(st, generation, active, waiting).store.tasks, g)
  {
    UpsertLeaves(st.tasks, active + waiting, g);
  }

  lemma PageLeaves(st: StoreState, op: StoreOp, g: Gid)
    requires op.Page? && Perform(st, op).Applied? && g !in TakenRows(op)
    ensures Stays(st.tasks, Perform(st, op).store.tasks, g)
  {
    KeptIsHeld(op.offset, op.total, op.page);
    KeptDistinct(op.offset, op.total, op.page);
    UpsertLeaves(st.tasks, Kept(op.offset, op.total, op.page), g);
  }

  lemma SeedLeaves(st: StoreState, op: StoreOp, g: Gid)
    requires op.Seed? && Perform(st, op).Applied? && g !in Named(st, op)
    ensures Stays(st.tasks, Perform(st, op).store.tasks, g)
  {
    SeededRowsAreAdmitted(st, op.generation, op.records, g);
    forall k | 0 <= k < |op.records| && Admits(st, op.records[k]) ensures op.records[k].gid in Named(st, op) {
      assert op.records[k] in op.records;
    }
  }

  /** Every other task stays as it is, whatever the call. */
  lemma OthersStay(st: StoreState, op: StoreOp, g: Gid)
    requires st.Valid() && Perform(st, op).Applied? && g !in Named(st, op)
    ensures Stays(st.tasks, Perform(st, op).store.tasks, g)
  {
    match op {
      case Reconcile(generation, active, waiting) => ReconcileLeaves(st, generation, active, waiting, g);
      case Page(_, _, _, _) => PageLeaves(st, op, g);
      case Seed(_, _) => SeedLeaves(st, op, g);
      case Target(_, gid, None) => assert Elems([gid]) == {gid};
      case Target(_, _, Some(_)) =>
      case _ =>
    }
  }
}
