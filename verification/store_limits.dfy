/** What the store does not promise, and exactly when it nevertheless holds. */
module StoreLimits {
  import opened Prelude
  import opened Seqs
  import opened Tasks
  import opened Pages
  import opened StoreSpec
  import opened StoreProps
  import opened StoreDiff
  import opened Text

  // ----- Tasks that no list holds

  /** Tasks the store keeps although neither an engine list nor the history rows name them. */
  function Unlisted(st: StoreState): set<Gid> {
    st.tasks.Keys - st.Listed()
  }

  /** The unlisted tasks an operation leaves, told from the store before it. */
  function UnlistedAfter(st: StoreState, op: StoreOp): set<Gid> {
    match op
    case Reconcile(_, active, waiting) => Unlisted(st) - Elems(Gids(active + waiting))
    case Page(_, offset, total, page) =>
      var gids := Gids(Kept(offset, total, page));
      Unlisted(st) + Elems(st.stoppedOrder) + Elems(gids)
      - Elems(Flatten(PagesWith(st.stoppedPages, offset, total, gids)))
    case Target(_, gid, Some(_)) => Unlisted(st) + ({gid} - st.Live() - Elems(st.stoppedOrder))
    case Target(_, gid, None) => Unlisted(st) - {gid}
    case Remove(_, gids) => Unlisted(st) - Elems(gids)
    case Seed(_, records) => Unlisted(st) + Elems(st.historyOrder) - Elems(RowGids(SeedRows(st, records)))
    case _ => Unlisted(st)
  }

  lemma ReconcileUnlists(st: StoreState, active: seq<TaskSnapshot>, waiting: seq<TaskSnapshot>)
    requires st.Valid() && Distinct(Gids(active + waiting))
    ensures Unlisted(Reconciled(st, active, waiting).store) == Unlisted(st) - Elems(Gids(active + waiting))
  {
    ReconciledOrders(st, active, waiting);
    ReconciledKeys(st, active, waiting);
  }

  lemma PageUnlists(st: StoreState, offset: U64, total: Option<U64>, kept: seq<TaskSnapshot>)
    requires st.Valid()
    ensures Unlisted(PageApplied(st, offset, total, kept).store)
            == Unlisted(st) + Elems(st.stoppedOrder) + Elems(Gids(kept))
               - Elems(Flatten(PagesWith(st.stoppedPages, offset, total, Gids(kept))))
  {
    PageAppliedMoves(st, offset, total, kept);
  }

  lemma StoredPageUnlists(st: StoreState, offset: U64, total: Option<U64>, page: seq<TaskSnapshot>)
    requires st.Valid() && ApplyStoppedPage(st, st.session.generation, offset, total, page).Applied?
    ensures var gids := Gids(Kept(offset, total, page));
            Unlisted(ApplyStoppedPage(st, st.session.generation, offset, total, page).store)
            == Unlisted(st) + Elems(st.stoppedOrder) + Elems(gids)
               - Elems(Flatten(PagesWith(st.stoppedPages, offset, total, gids)))
  {
    PageUnlists(st, offset, total, Kept(offset, total, page));
  }

  lemma RemoveUnlists(st: StoreState, gids: seq<Gid>)
    requires st.Valid()
    ensures Unlisted(RemoveTasks(st, st.session.generation, gids).store) == Unlisted(st) - Elems(gids)
  {
    RemoveLeavesNoTrace(st, st.session.generation, gids);
  }

  lemma SeedUnlists(st: StoreState, records: seq<HistoryRecord>)
    requires st.Valid()
    ensures Unlisted(SeedLocalHistory(st, st.session.generation, records).store)
            == Unlisted(st) + Elems(st.historyOrder) - Elems(RowGids(SeedRows(st, records)))
  {
    SeedRowsFacts(st, records);
  }

  lemma TargetUnlists(st: StoreState, gid: Gid, s: TaskSnapshot)
    requires st.Valid() && s.gid == gid
    ensures Unlisted(ApplyTaskSnapshot(st, st.session.generation, gid, Some(s)).store)
            == Unlisted(st) + ({gid} - st.Live() - Elems(st.stoppedOrder))
  {
  }

  lemma OthersUnlist(st: StoreState, op: StoreOp)
    requires st.Valid() && Perform(st, op).Applied?
    requires op.Begin? || op.Stat? || op.Stale? || op.Rename? || op.Forget?
    ensures Unlisted(Perform(st, op).store) == Unlisted(st)
  {
  }

  /** The unlisted tasks after any operation on a valid store. */
  lemma UnlistedExactly(st: StoreState, op: StoreOp)
    requires st.Valid() && Perform(st, op).Applied?
    ensures Unlisted(Perform(st, op).store) == UnlistedAfter(st, op)
  {
    match op {
      case Reconcile(_, active, waiting) => ReconcileUnlists(st, active, waiting);
      case Page(_, offset, total, page) => StoredPageUnlists(st, offset, total, page);
      case Target(_, gid, None) => RemoveUnlists(st, [gid]);
      case Remove(_, gids) => RemoveUnlists(st, gids);
      case Seed(_, records) => SeedUnlists(st, records);
      case Target(_, gid, Some(s)) => TargetUnlists(st, gid, s);
      case _ => OthersUnlist(st, op);
    }
  }

  /** The page a new one replaces, and the pages past a reported total, go away. */
  predicate Goes(p: Pages.Page, offset: U64, total: Option<U64>) {
    p.offset == offset || (total.Some? && p.offset >= total.value)
  }

  /** Every gid of a page that goes is among the new gids or in a page that stays. */
  predicate KeepsPaged(pages: seq<Pages.Page>, offset: U64, total: Option<U64>, gids: seq<Gid>) {
    forall p | p in pages && Goes(p, offset, total) ::
      forall g | g in p.gids ::
        g in gids || exists q | q in pages :: !Goes(q, offset, total) && g in q.gids
  }

  /** The calls that leave no task unlisted, told from the store before the call and its arguments. */
  predicate KeepsListed(st: StoreState, op: StoreOp) {
    match op
    case Target(_, gid, Some(_)) => gid in st.Live() + Elems(st.stoppedOrder)
    case Page(_, offset, total, page) => KeepsPaged(st.stoppedPages, offset, total, Gids(Kept(offset, total, page)))
    case Seed(_, records) => Elems(st.historyOrder) <= Elems(RowGids(SeedRows(st, records)))
    case _ => true
  }

  lemma StaysIff(pages: seq<Pages.Page>, offset: U64, total: Option<U64>, gids: seq<Gid>, g: Gid)
    requires Sorted(pages) && (total.Some? && offset >= total.value ==> gids == [])
    ensures g in Elems(Flatten(PagesWith(pages, offset, total, gids))) <==>
            g in gids || exists q :: q in pages && !Goes(q, offset, total) && g in q.gids
  {
    var (page, after) := (Pages.Page(offset, gids), PagesWith(pages, offset, total, gids));
    InsertIsMapUpdate(pages, page);
    FlattenElems(after);
    assert forall q :: q in after <==>
             (total.Some? ==> q.offset < total.value) && (q == page || (q in pages && q.offset != offset));
    if g in gids {
      assert page in after;
    }
    if g in Elems(Flatten(after)) {
      var q :| q in after && g in q.gids;
      assert q == page || (q in pages && !Goes(q, offset, total));
    }
    if q :| q in pages && !Goes(q, offset, total) && g in q.gids {
      assert q in after;
    }
  }

  lemma KeepsPagedIff(pages: seq<Pages.Page>, offset: U64, total: Option<U64>, gids: seq<Gid>)
    requires Sorted(pages) && (total.Some? && offset >= total.value ==> gids == [])
    ensures Elems(Flatten(pages)) + Elems(gids) <= Elems(Flatten(PagesWith(pages, offset, total, gids)))
            <==> KeepsPaged(pages, offset, total, gids)
  {
    var after := Elems(Flatten(PagesWith(pages, offset, total, gids)));
    FlattenElems(pages);
    forall g ensures g in after <==> g in gids || exists q :: q in pages && !Goes(q, offset, total) && g in q.gids {
      StaysIff(pages, offset, total, gids, g);
    }
    if KeepsPaged(pages, offset, total, gids) {
      forall g | g in Elems(Flatten(pages)) + Elems(gids) ensures g in after {
        if g !in gids {
          var p :| p in pages && g in p.gids;
        }
      }
    }
    if Elems(Flatten(pages)) + Elems(gids) <= after {
      forall p, g | p in pages && Goes(p, offset, total) && g in p.gids
        ensures g in gids || exists q :: q in pages && !Goes(q, offset, total) && g in q.gids
      {
        assert g in Elems(Flatten(pages));
      }
    }
  }

  lemma NothingLeft<T>(a: set<T>, b: set<T>)
    ensures a - b == {} <==> a <= b
  {
    forall x | a - b == {} && x in a ensures x in b {
      assert x !in a - b;
    }
  }

  lemma StillListed(st: StoreState, op: StoreOp)
    requires st.Valid() && Unlisted(st) == {}
    ensures UnlistedAfter(st, op) == {} <==> KeepsListed(st, op)
  {
    match op {
      case Page(_, offset, total, page) =>
        var gids := Gids(Kept(offset, total, page));
        NothingLeft(Elems(st.stoppedOrder) + Elems(gids),
                    Elems(Flatten(PagesWith(st.stoppedPages, offset, total, gids))));
        KeepsPagedIff(st.stoppedPages, offset, total, gids);
      case Target(_, gid, Some(_)) => NothingLeft({gid}, st.Live() + Elems(st.stoppedOrder));
      case Seed(_, records) => NothingLeft(Elems(st.historyOrder), Elems(RowGids(SeedRows(st, records))));
      case _ =>
    }
  }

  /** While every task is listed, exactly these calls keep it so. */
  lemma ListedExactly(st: StoreState, op: StoreOp)
    requires st.Valid() && st.tasks.Keys == st.Listed() && Perform(st, op).Applied?
    ensures Perform(st, op).store.tasks.Keys == Perform(st, op).store.Listed() <==> KeepsListed(st, op)
  {
    var after := Perform(st, op).store;
    PerformValid(st, op);
    UnlistedExactly(st, op);
    NothingLeft(after.tasks.Keys, after.Listed());
    StillListed(st, op);
  }

  /** A targeted snapshot of a task the store has never seen leaves it outside every list. */
  lemma TargetIsUnlisted(session: EngineSession, lower: string -> string, s: TaskSnapshot)
    ensures var st := NewStore(session, lower);
            var r := ApplyTaskSnapshot(st, session.generation, s.gid, Some(s));
            r.Applied? && s.gid in r.store.tasks && r.store.Listed() == {}
  {
  }

  // ----- History rows that go without a mark

  /** A change of the history rows is marked as a change of the stopped list. */
  predicate HistoryMarked(st: StoreState, outcome: Outcome)
    requires outcome.Applied?
  {
    st.historyOrder != outcome.store.historyOrder ==> StoppedList in outcome.patch.orderChanges
  }

  /** The calls that mark it, told from the store before the call and its arguments. */
  predicate MarksHistory(st: StoreState, op: StoreOp) {
    match op
    case Target(_, gid, Some(_)) => gid !in st.historyOnly
    case Reconcile(_, active, waiting) =>
      var live := Elems(Gids(active + waiting));
      st.historyOnly !! live || !(Elems(st.stoppedOrder) !! live)
    case _ => true
  }

  lemma ReconcileMarks(st: StoreState, active: seq<TaskSnapshot>, waiting: seq<TaskSnapshot>)
    requires st.Valid()
    ensures var live := Elems(Gids(active + waiting));
            HistoryMarked(st, Reconciled(st, active, waiting)) <==>
            st.historyOnly !! live || !(Elems(st.stoppedOrder) !! live)
  {
    ReconciledTellsRest(st, active, waiting);
    ReconciledStopped(st, active, waiting);
    WithoutChanges(st.historyOrder, Elems(Gids(active + waiting)));
    WithoutChanges(st.stoppedOrder, Elems(Gids(active + waiting)));
  }

  lemma HeldIsStopped(pages: seq<Pages.Page>, offset: U64, total: Option<U64>, gids: seq<Gid>, g: Gid)
    requires Sorted(pages) && g in Elems(gids) && (total.Some? ==> offset < total.value)
    ensures g in Elems(Flatten(PagesWith(pages, offset, total, gids)))
  {
    var page := Pages.Page(offset, gids);
    InsertIsMapUpdate(pages, page);
    FlattenElems(PagesWith(pages, offset, total, gids));
    assert page in PagesWith(pages, offset, total, gids) && g in page.gids;
  }

  /** A page that takes over a history row also brings it into the stopped order, which is marked. */
  lemma PageMarks(st: StoreState, offset: U64, total: Option<U64>, kept: seq<TaskSnapshot>)
    requires st.Valid() && (total.Some? && kept != [] ==> offset < total.value)
    ensures HistoryMarked(st, PageApplied(st, offset, total, kept))
  {
    var gids := Gids(kept);
    PageTellsRest(st, offset, total, kept);
    WithoutChanges(st.historyOrder, Elems(gids));
    if g :| g in Elems(st.historyOrder) && g in Elems(gids) {
      HeldIsStopped(st.stoppedPages, offset, total, gids, g);
      assert g !in Elems(st.stoppedOrder);
      assert g in Elems(PageApplied(st, offset, total, kept).store.stoppedOrder);
    }
  }

  lemma StoredPageMarks(st: StoreState, offset: U64, total: Option<U64>, page: seq<TaskSnapshot>)
    requires st.Valid() && ApplyStoppedPage(st, st.session.generation, offset, total, page).Applied?
    ensures HistoryMarked(st, ApplyStoppedPage(st, st.session.generation, offset, total, page))
  {
    PageMarks(st, offset, total, Kept(offset, total, page));
  }

  lemma TargetMarks(st: StoreState, gid: Gid, s: TaskSnapshot)
    requires st.Valid() && s.gid == gid
    ensures HistoryMarked(st, ApplyTaskSnapshot(st, st.session.generation, gid, Some(s))) <==> gid !in st.historyOnly
  {
    WithoutChanges(st.historyOrder, {gid});
  }

  lemma OthersMark(st: StoreState, op: StoreOp)
    requires Perform(st, op).Applied? && (ReportsHistory(op) || op.Begin? || op.Stat? || op.Stale? || op.Rename?)
    ensures HistoryMarked(st, Perform(st, op))
  {
    PerformTellsRest(st, op);
    PerformTouchesOnly(st, op);
  }

  /** For every operation: a history change goes unmarked in exactly two kinds of calls. */
  lemma HistoryMarkedIff(st: StoreState, op: StoreOp)
    requires st.Valid() && Perform(st, op).Applied?
    ensures HistoryMarked(st, Perform(st, op)) <==> MarksHistory(st, op)
  {
    match op {
      case Reconcile(_, active, waiting) => ReconcileMarks(st, active, waiting);
      case Page(_, offset, total, page) => StoredPageMarks(st, offset, total, page);
      case Target(_, gid, Some(s)) => TargetMarks(st, gid, s);
      case _ => OthersMark(st, op);
    }
  }

  lemma OneRow(st: StoreState, record: HistoryRecord)
    requires Seeds(st, record)
    ensures SeedRows(st, [record]) == [record] && RowGids([record]) == [record.gid] &&
            Dedup([record.gid]) == [record.gid]
    ensures Elems([record.gid]) == {record.gid}
  {
    assert [record][..0] == [] && [record.gid][..0] == [];
  }

  lemma TakenOver(st: StoreState, s: TaskSnapshot)
    requires st.Valid() && st.historyOrder == [s.gid] && st.stoppedOrder == []
    ensures var r := Perform(st, Target(st.session.generation, s.gid, Some(s)));
            r.Applied? && !HistoryMarked(st, r)
    ensures var r := Perform(st, Reconcile(st.session.generation, [s], []));
            r.Applied? && !HistoryMarked(st, r)
  {
    assert s.gid in st.historyOrder && s.gid in Elems(st.historyOrder);
    HistoryMarkedIff(st, Target(st.session.generation, s.gid, Some(s)));
    assert [s] + [] == [s] && Gids([s]) == [s.gid];
    assert s.gid in Elems(Gids([s]));
    HistoryMarkedIff(st, Reconcile(st.session.generation, [s], []));
  }

  /** One seeded row: a targeted snapshot takes it over unmarked, and so does a live list. */
  lemma TakeoverIsUnmarked(session: EngineSession, lower: string -> string, record: HistoryRecord, s: TaskSnapshot)
    requires record.profileId == session.profileId && record.status == Complete && record.gid == s.gid
    ensures var st := SeedLocalHistory(NewStore(session, lower), session.generation, [record]).store;
            var target := Perform(st, Target(session.generation, s.gid, Some(s)));
            var live := Perform(st, Reconcile(session.generation, [s], []));
            && st.historyOrder == [s.gid]
            && target.Applied? && !HistoryMarked(st, target)
            && live.Applied? && !HistoryMarked(st, live)
  {
    var empty := NewStore(session, lower);
    OneRow(empty, record);
    SeededValid(empty, [record]);
    TakenOver(SeedLocalHistory(empty, session.generation, [record]).store, s);
  }

  lemma SeedsLoudly(st: StoreState, record: HistoryRecord)
    requires st.Valid() && Seeds(st, record)
    ensures var after := SeedLocalHistory(st, st.session.generation, [record]).store;
            !SeedLocalHistory(after, st.session.generation, [record]).patch.IsEmpty()
  {
    OneRow(st, record);
    ReseedQuietIffNoRows(st, st.session.generation, [record]);
  }

  /** The same record seeded twice into a fresh store is reported as rewritten. */
  lemma ReseedIsLoud(session: EngineSession, lower: string -> string, record: HistoryRecord)
    requires record.profileId == session.profileId && record.status == Complete
    ensures var st := SeedLocalHistory(NewStore(session, lower), session.generation, [record]).store;
            !SeedLocalHistory(st, session.generation, [record]).patch.IsEmpty()
  {
    SeedsLoudly(NewStore(session, lower), record);
  }

  // ----- Task revisions that fall

  /** No task that stays loses revisions. */
  ghost predicate RevisionsRise(before: map<Gid, DownloadTask>, after: map<Gid, DownloadTask>) {
    forall g :: g in before && g in after ==> before[g].revision <= after[g].revision
  }

  /** The operations under which task revisions never fall, told from the store before and the arguments. */
  predicate KeepsRevisions(st: StoreState, op: StoreOp) {
    match op
    case Seed(_, records) =>
      var gids := RowGids(SeedRows(st, records));
      forall g | g in gids && g in st.tasks :: st.tasks[g].revision <= 1
    case _ => true
  }

  lemma UpsertAllRises(tasks: map<Gid, DownloadTask>, snapshots: seq<TaskSnapshot>)
    requires Distinct(Gids(snapshots))
    ensures RevisionsRise(tasks, UpsertAll(tasks, snapshots))
  {
    UpsertAllPointwise(tasks, snapshots);
    forall g | g in tasks && g in UpsertAll(tasks, snapshots)
      ensures tasks[g].revision <= UpsertAll(tasks, snapshots)[g].revision
    {
      if g in Elems(Gids(snapshots)) {
        var k :| 0 <= k < |snapshots| && Gids(snapshots)[k] == g;
        assert Upserted(tasks, snapshots[k]).revision >= tasks[g].revision;
      }
    }
  }

  lemma SeedRises(st: StoreState, records: seq<HistoryRecord>)
    ensures RevisionsRise(st.tasks, SeedLocalHistory(st, st.session.generation, records).store.tasks)
            <==> KeepsRevisions(st, Seed(st.session.generation, records))
  {
    var (rows, after) := (SeedRows(st, records), SeedLocalHistory(st, st.session.generation, records).store);
    forall g | g in st.tasks
      ensures g in after.tasks
      ensures after.tasks[g].revision == if g in RowGids(rows) then 1 else st.tasks[g].revision
    {
      SeedTouchesRowsOnly(st, st.session.generation, records, g);
    }
  }

  lemma OthersRise(st: StoreState, op: StoreOp)
    requires Perform(st, op).Applied? && !op.Seed? && !op.Reconcile? && !op.Page?
    ensures RevisionsRise(st.tasks, Perform(st, op).store.tasks)
  {
  }

  lemma PageRises(st: StoreState, offset: U64, total: Option<U64>, page: seq<TaskSnapshot>)
    requires Distinct(Gids(page))
    ensures RevisionsRise(st.tasks, PageApplied(st, offset, total, Kept(offset, total, page)).store.tasks)
  {
    KeptDistinct(offset, total, page);
    UpsertAllRises(st.tasks, Kept(offset, total, page));
  }

  lemma ReconcileRises(st: StoreState, active: seq<TaskSnapshot>, waiting: seq<TaskSnapshot>)
    requires Distinct(Gids(active + waiting))
    ensures RevisionsRise(st.tasks, Reconciled(st, active, waiting).store.tasks)
  {
    UpsertAllRises(st.tasks, active + waiting);
  }

  /** Only seeding ever lowers a task's revision: exactly when it rewrites a task that was past its first one. */
  lemma RevisionsRiseIff(st: StoreState, op: StoreOp)
    requires st.Valid() && Perform(st, op).Applied?
    ensures RevisionsRise(st.tasks, Perform(st, op).store.tasks) <==> KeepsRevisions(st, op)
  {
    match op {
      case Seed(_, records) => SeedRises(st, records);
      case Reconcile(_, active, waiting) => ReconcileRises(st, active, waiting);
      case Page(_, offset, total, page) => PageRises(st, offset, total, page);
      case _ => OthersRise(st, op);
    }
  }

  lemma RenamedRevision(t: DownloadTask, name: string)
    requires name != t.displayName
    ensures Renamed(t, name).revision == SatInc(t.revision)
  {
    assert DisplayName in ChangedFields(t, t.(displayName := name, nameState := Custom));
  }

  lemma SeededOver(st: StoreState, record: HistoryRecord)
    requires Seeds(st, record)
    ensures var after := SeedLocalHistory(st, st.session.generation, [record]).store;
            record.gid in after.tasks && after.tasks[record.gid].revision == 1
  {
    OneRow(st, record);
    SeedTouchesRowsOnly(st, st.session.generation, [record], record.gid);
  }

  lemma SeenOnce(session: EngineSession, lower: string -> string, s: TaskSnapshot)
    ensures var r := ApplyTaskSnapshot(NewStore(session, lower), session.generation, s.gid, Some(s));
            && r.Applied? && r.store.session == session && r.store.Listed() == {}
            && r.store.tasks == map[s.gid := DownloadTask.FromSnapshot(s)]
  {
  }

  lemma RenamedOnce(st: StoreState, gid: Gid, name: string)
    requires gid in st.tasks && name != st.tasks[gid].displayName
    ensures var r := SetCustomName(st, st.session.generation, gid, name);
            && r.Applied? && r.store.session == st.session && r.store.Listed() == st.Listed()
            && gid in r.store.tasks && r.store.tasks[gid].revision == SatInc(st.tasks[gid].revision)
  {
    RenamedRevision(st.tasks[gid], name);
  }

  /** A task seen, renamed, and then found in the history goes from revision 2 back to 1. */
  lemma RevisionFalls(session: EngineSession, lower: string -> string, s: TaskSnapshot, name: string,
                      record: HistoryRecord)
    requires name != s.displayName && record.gid == s.gid
    requires record.profileId == session.profileId && record.status == Complete
    ensures var g := session.generation;
            var seen := ApplyTaskSnapshot(NewStore(session, lower), g, s.gid, Some(s)).store;
            var renamed := SetCustomName(seen, g, s.gid, name).store;
            && renamed.tasks[s.gid].revision == 2
            && SeedLocalHistory(renamed, g, [record]).store.tasks[s.gid].revision == 1
  {
    SeenOnce(session, lower, s);
    var seen := ApplyTaskSnapshot(NewStore(session, lower), session.generation, s.gid, Some(s)).store;
    RenamedOnce(seen, s.gid, name);
    var renamed := SetCustomName(seen, session.generation, s.gid, name).store;
    SeededOver(renamed, record);
  }

  // ----- Pages that come to overlap

  /** Where a page may go without overlapping the pages it joins. */
  predicate Fits(pages: seq<Pages.Page>, offset: U64, total: Option<U64>, gids: seq<Gid>) {
    (total.Some? && offset >= total.value) ||
    forall p | p in pages ::
      && (p.offset < offset ==> p.offset + |p.gids| <= offset)
      && (p.offset > offset && (total.Some? ==> p.offset < total.value) ==> offset + |gids| <= p.offset)
  }

  /** The operations that leave pages apart that were apart, told from the store before and the arguments. */
  predicate KeepsApart(st: StoreState, op: StoreOp) {
    match op
    case Page(_, offset, total, page) => Fits(st.stoppedPages, offset, total, Gids(Kept(offset, total, page)))
    case _ => true
  }

  /** The same as `NonOverlapping`, told without indices. */
  ghost predicate Apart(pages: seq<Pages.Page>) {
    forall p, q :: p in pages && q in pages && p.offset < q.offset ==> p.offset + |p.gids| <= q.offset
  }

  lemma ApartIsNonOverlapping(pages: seq<Pages.Page>)
    requires Sorted(pages)
    ensures Apart(pages) <==> NonOverlapping(pages)
  {
    if Apart(pages) {
      forall i, j | 0 <= i < j < |pages| ensures pages[i].offset + |pages[i].gids| <= pages[j].offset {
        assert pages[i] in pages && pages[j] in pages;
      }
    }
    if NonOverlapping(pages) {
      forall p, q | p in pages && q in pages && p.offset < q.offset ensures p.offset + |p.gids| <= q.offset {
        var i :| 0 <= i < |pages| && pages[i] == p;
        var j :| 0 <= j < |pages| && pages[j] == q;
        assert i < j;
      }
    }
  }

  lemma PageFits(pages: seq<Pages.Page>, after: seq<Pages.Page>, offset: U64, total: Option<U64>, gids: seq<Gid>)
    requires Apart(pages)
    requires forall p :: p in after <==>
               (total.Some? ==> p.offset < total.value) &&
               (p == Pages.Page(offset, gids) || (p in pages && p.offset != offset))
    ensures Apart(after) <==> Fits(pages, offset, total, gids)
  {
    var page := Pages.Page(offset, gids);
    if page in after && Apart(after) {
      forall p | p in pages
        ensures p.offset < offset ==> p.offset + |p.gids| <= offset
        ensures p.offset > offset && (total.Some? ==> p.offset < total.value) ==> offset + |gids| <= p.offset
      {
        assert p.offset < offset ==> p in after;
        assert p.offset > offset && (total.Some? ==> p.offset < total.value) ==> p in after;
      }
    }
  }

  lemma PurgeKeepsApart(pages: seq<Pages.Page>, dropped: set<Gid>)
    requires NonOverlapping(pages)
    ensures NonOverlapping(Purge(pages, dropped))
  {
  }

  lemma PageApart(st: StoreState, offset: U64, total: Option<U64>, page: seq<TaskSnapshot>)
    requires st.Valid() && NonOverlapping(st.stoppedPages)
    requires ApplyStoppedPage(st, st.session.generation, offset, total, page).Applied?
    ensures var after := ApplyStoppedPage(st, st.session.generation, offset, total, page).store;
            NonOverlapping(after.stoppedPages) <==>
              Fits(st.stoppedPages, offset, total, Gids(Kept(offset, total, page)))
  {
    var after := ApplyStoppedPage(st, st.session.generation, offset, total, page).store;
    PageIsStored(st, st.session.generation, offset, total, page);
    KeptIsHeld(offset, total, page);
    PageValid(st, offset, total, page);
    ApartIsNonOverlapping(st.stoppedPages);
    ApartIsNonOverlapping(after.stoppedPages);
    PageFits(st.stoppedPages, after.stoppedPages, offset, total, Held(offset, total, page));
  }

  /** While pages do not overlap, exactly the pages that fit keep it so. */
  lemma ApartExactly(st: StoreState, op: StoreOp)
    requires st.Valid() && NonOverlapping(st.stoppedPages) && Perform(st, op).Applied?
    ensures NonOverlapping(Perform(st, op).store.stoppedPages) <==> KeepsApart(st, op)
  {
    match op {
      case Page(generation, offset, total, page) => PageApart(st, offset, total, page);
      case Reconcile(_, active, waiting) => PurgeKeepsApart(st.stoppedPages, Elems(Gids(active + waiting)));
      case Remove(_, gids) => PurgeKeepsApart(st.stoppedPages, Elems(gids));
      case Target(_, gid, None) => PurgeKeepsApart(st.stoppedPages, Elems([gid]));
      case _ => PerformTouchesOnly(st, op);
    }
  }

  // ----- Categories across a restart

  function OtherRows(rows: seq<(Gid, string)>, gid: Gid): seq<(Gid, string)> {
    if rows == [] then []
    else
      var rest, last := OtherRows(rows[..|rows| - 1], gid), rows[|rows| - 1];
      if last.0 == gid then rest else rest + [last]
  }

  /** The category rows the history keeps after a change: identifiers are trimmed, and empty ones clear the row. */
  function Persisted(rows: seq<(Gid, string)>, gid: Gid, category: Option<string>): seq<(Gid, string)> {
    OtherRows(rows, gid) +
    (if category.Some? && Trim(category.value) != "" then [(gid, Trim(category.value))] else [])
  }

  lemma {:induction false} OtherAffiliations(rows: seq<(Gid, string)>, gid: Gid)
    ensures Affiliations(OtherRows(rows, gid)) == Affiliations(rows) - {gid}
  {
    if rows != [] {
      var init, last := rows[..|rows| - 1], rows[|rows| - 1];
      OtherAffiliations(init, gid);
      if last.0 != gid {
        var rest := OtherRows(init, gid);
        assert (rest + [last])[..|rest|] == rest;
      }
    }
  }

  lemma PersistedAffiliations(rows: seq<(Gid, string)>, gid: Gid, category: Option<string>)
    ensures Affiliations(Persisted(rows, gid, category))
            == if category.Some? && Trim(category.value) != ""
               then Affiliations(rows)[gid := Trim(category.value)] else Affiliations(rows) - {gid}
  {
    OtherAffiliations(rows, gid);
    var rest := OtherRows(rows, gid);
    if category.Some? && Trim(category.value) != "" {
      assert (rest + [(gid, Trim(category.value))])[..|rest|] == rest;
    } else {
      assert rest + [] == rest;
    }
  }

  /**
   Changing one affiliation in memory and reloading the changed rows from the history agree exactly when the
   identifier carries no white space around it.
   */
  lemma ReloadAgreesIffTrimmed(st: StoreState, rows: seq<(Gid, string)>, gid: Gid, category: Option<string>)
    ensures SetCategory(SetCategories(st, rows), gid, category) == SetCategories(st, Persisted(rows, gid, category))
            <==> category.None? || Trim(category.value) == category.value
  {
    PersistedAffiliations(rows, gid, category);
    var memory := SetCategory(SetCategories(st, rows), gid, category).categoryByGid;
    var reloaded := SetCategories(st, Persisted(rows, gid, category)).categoryByGid;
    if category.Some? && Trim(category.value) != category.value {
      assert category.value != "";
      assert memory[gid] == category.value;
      assert gid in reloaded ==> reloaded[gid] == Trim(category.value);
    }
  }

  lemma TrimPadded(plain: string)
    requires plain != "" && !IsWhitespace(plain[0]) && !IsWhitespace(plain[|plain| - 1])
    ensures Trim([' '] + plain) == plain
  {
    assert ([' '] + plain)[1..] == plain;
    assert TrimStart([' '] + plain) == TrimStart(plain) == plain;
  }

  /** A padded identifier is kept as it is in memory and comes back without its padding. */
  lemma PaddedCategoryChanges(st: StoreState, gid: Gid, plain: string)
    requires plain != "" && !IsWhitespace(plain[0]) && !IsWhitespace(plain[|plain| - 1])
    ensures SetCategory(st, gid, Some([' '] + plain)).categoryByGid[gid] == [' '] + plain
    ensures gid in SetCategories(st, Persisted([], gid, Some([' '] + plain))).categoryByGid
    ensures SetCategories(st, Persisted([], gid, Some([' '] + plain))).categoryByGid[gid] == plain
  {
    TrimPadded(plain);
    PersistedAffiliations([], gid, Some([' '] + plain));
  }
}
