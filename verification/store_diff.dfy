/** Patches are exact differences between the store before and the store after. */
module StoreDiff {
  import opened Prelude
  import opened Seqs
  import opened Tasks
  import opened Pages
  import opened StoreSpec
  import opened StoreProps

  /** The task part of a patch is the difference of the two task maps, no more and no less. */
  ghost predicate TellsTasks(before: map<Gid, DownloadTask>, after: map<Gid, DownloadTask>,
                             inserted: seq<Gid>, updated: seq<TaskFieldPatch>, removed: set<Gid>) {
    && Distinct(inserted) && Elems(inserted) == after.Keys - before.Keys
    && removed == before.Keys - after.Keys
    && Distinct(UpdatedGids(updated)) && Elems(UpdatedGids(updated)) == Moved(before, after)
    && (forall u :: u in updated ==> Tells(u, before, after))
    && (forall g :: g in before && g in after && g !in Moved(before, after) ==> after[g] == before[g])
  }

  /** The whole patch of an operation that owns nothing but tasks and engine orders. */
  ghost predicate ExactDiff(before: StoreState, after: StoreState, p: StorePatch) {
    && TellsTasks(before.tasks, after.tasks, p.inserted, p.updated, p.removed)
    && (ActiveList in p.orderChanges <==> before.activeOrder != after.activeOrder)
    && (WaitingList in p.orderChanges <==> before.waitingOrder != after.waitingOrder)
    && (StoppedList in p.orderChanges <==> before.stoppedOrder != after.stoppedOrder)
    && (p.globalStatChanged <==> before.globalStat != after.globalStat)
    && (p.staleChanged <==> before.stale != after.stale)
    && (p.sessionChanged <==> before.session != after.session)
    && p.generation == after.session.generation
    && p.storeRevision == after.revision == if p.IsEmpty() then before.revision else SatInc(before.revision)
  }

  // ----- Task maps changed by snapshots

  lemma UpsertedMoves(tasks: map<Gid, DownloadTask>, s: TaskSnapshot)
    requires s.gid in tasks ==> tasks[s.gid].gid == s.gid
    ensures s.gid in tasks ==>
              (ChangedFields(tasks[s.gid], Upserted(tasks, s)) == {} <==> Upserted(tasks, s) == tasks[s.gid])
  {
    if s.gid in tasks {
      var t := tasks[s.gid];
      UnchangedIffNoField(t, WithDetails(WithTransfer(WithName(t, s), s), s));
    }
  }

  lemma SelfUnmoved(t: DownloadTask)
    ensures ChangedFields(t, t) == {}
  {
  }

  /** Upserting moves only tasks that a snapshot mentions. */
  lemma UpsertMovesMentioned(tasks: map<Gid, DownloadTask>, snapshots: seq<TaskSnapshot>, g: Gid)
    requires Distinct(Gids(snapshots)) && g in tasks && tasks[g].gid == g
    ensures g in UpsertAll(tasks, snapshots)
    ensures var t := UpsertAll(tasks, snapshots)[g];
            (ChangedFields(tasks[g], t) == {} ==> t == tasks[g]) &&
            (g !in Elems(Gids(snapshots)) ==> ChangedFields(tasks[g], t) == {})
  {
    UpsertAllPointwise(tasks, snapshots);
    if g in Elems(Gids(snapshots)) {
      var k :| 0 <= k < |snapshots| && Gids(snapshots)[k] == g;
      UpsertedMoves(tasks, snapshots[k]);
    } else {
      SelfUnmoved(tasks[g]);
    }
  }

  /** Dropping tasks that no patch mentions keeps the patches true. */
  lemma TellsRestricted(before: map<Gid, DownloadTask>, all: map<Gid, DownloadTask>, after: map<Gid, DownloadTask>,
                        updated: seq<TaskFieldPatch>)
    requires forall u :: u in updated ==> Tells(u, before, all)
    requires Elems(UpdatedGids(updated)) <= after.Keys <= all.Keys
    requires forall g :: g in after ==> after[g] == all[g]
    ensures forall u :: u in updated ==> Tells(u, before, after)
  {
    forall u | u in updated ensures Tells(u, before, after) {
      assert Tells(u, before, all);
      assert u.gid in UpdatedGids(updated) && u.gid in Elems(UpdatedGids(updated));
    }
  }

  /** Upserting snapshots and then dropping tasks that no snapshot mentions. */
  lemma UpsertDiff(tasks: map<Gid, DownloadTask>, snapshots: seq<TaskSnapshot>, dropped: set<Gid>)
    requires Distinct(Gids(snapshots)) && dropped <= tasks.Keys && dropped !! Elems(Gids(snapshots))
    requires forall g :: g in tasks ==> tasks[g].gid == g
    requires UpsertAll(tasks, snapshots).Keys == tasks.Keys + Elems(Gids(snapshots))
    ensures TellsTasks(tasks, UpsertAll(tasks, snapshots) - dropped,
                       Without(Gids(snapshots), tasks.Keys),
                       Updates(tasks, UpsertAll(tasks, snapshots), Gids(snapshots)), dropped)
  {
    var gids, all := Gids(snapshots), UpsertAll(tasks, snapshots);
    var after := all - dropped;
    WithoutDistinct(gids, tasks.Keys);
    UpdatesExact(tasks, all, gids);
    forall g | g in tasks {
      UpsertMovesMentioned(tasks, snapshots, g);
    }
    assert Moved(tasks, after) == Moved(tasks, all) * Elems(gids);
    TellsRestricted(tasks, all, after, Updates(tasks, all, gids));
  }

  /** Upserting snapshots and dropping nothing. */
  lemma UpsertKeepsAll(tasks: map<Gid, DownloadTask>, snapshots: seq<TaskSnapshot>)
    requires Distinct(Gids(snapshots)) && forall g :: g in tasks ==> tasks[g].gid == g
    requires UpsertAll(tasks, snapshots).Keys == tasks.Keys + Elems(Gids(snapshots))
    ensures TellsTasks(tasks, UpsertAll(tasks, snapshots), Without(Gids(snapshots), tasks.Keys),
                       Updates(tasks, UpsertAll(tasks, snapshots), Gids(snapshots)), {})
  {
    UpsertDiff(tasks, snapshots, {});
    assert UpsertAll(tasks, snapshots) - {} == UpsertAll(tasks, snapshots);
  }

  lemma ReconciledTellsTasks(st: StoreState, active: seq<TaskSnapshot>, waiting: seq<TaskSnapshot>)
    requires st.Valid() && Distinct(Gids(active + waiting))
    ensures var (after, p) := (Reconciled(st, active, waiting).store, Reconciled(st, active, waiting).patch);
            TellsTasks(st.tasks, after.tasks, p.inserted, p.updated, p.removed)
  {
    UpsertAllKeys(st.tasks, active + waiting);
    UpsertDiff(st.tasks, active + waiting, st.Live() - Elems(Gids(active + waiting)));
  }

  lemma ReconciledTellsOrders(st: StoreState, active: seq<TaskSnapshot>, waiting: seq<TaskSnapshot>)
    ensures var (after, p) := (Reconciled(st, active, waiting).store, Reconciled(st, active, waiting).patch);
            && (ActiveList in p.orderChanges <==> st.activeOrder != after.activeOrder)
            && (WaitingList in p.orderChanges <==> st.waitingOrder != after.waitingOrder)
            && (StoppedList in p.orderChanges <==> st.stoppedOrder != after.stoppedOrder)
  {
  }

  lemma ReconciledStopped(st: StoreState, active: seq<TaskSnapshot>, waiting: seq<TaskSnapshot>)
    requires st.Valid()
    ensures Reconciled(st, active, waiting).store.stoppedOrder
            == Without(st.stoppedOrder, Elems(Gids(active + waiting)))
  {
    FlattenPurge(st.stoppedPages, Elems(Gids(active + waiting)));
    DedupWithout(Flatten(st.stoppedPages), Elems(Gids(active + waiting)));
  }

  lemma ReconciledExactDiff(st: StoreState, active: seq<TaskSnapshot>, waiting: seq<TaskSnapshot>)
    requires st.Valid() && Distinct(Gids(active + waiting))
    ensures ExactDiff(st, Reconciled(st, active, waiting).store, Reconciled(st, active, waiting).patch)
  {
    ReconciledTellsTasks(st, active, waiting);
    ReconciledTellsOrders(st, active, waiting);
  }

  /** The patch of a live reconciliation is the exact difference. */
  lemma ReconcileIsExactDiff(st: StoreState, generation: U64, active: seq<TaskSnapshot>, waiting: seq<TaskSnapshot>)
    requires st.Valid() && ReconcileLive(st, generation, active, waiting).Applied?
    ensures var (after, p) := (ReconcileLive(st, generation, active, waiting).store,
                               ReconcileLive(st, generation, active, waiting).patch);
            && ExactDiff(st, after, p)
            && p.inserted == Without(Gids(active) + Gids(waiting), st.tasks.Keys)
            && p.removed == st.Live() - after.Live()
            && after.activeOrder == Gids(active) && after.waitingOrder == Gids(waiting)
            && after.stoppedOrder == Without(st.stoppedOrder, after.Live())
  {
    LiveGids(active, waiting);
    ReconciledExactDiff(st, active, waiting);
    ReconciledStopped(st, active, waiting);
  }

  lemma SameTasks(before: map<Gid, DownloadTask>, after: map<Gid, DownloadTask>)
    requires TellsTasks(before, after, [], [], {})
    ensures after == before
  {
    assert after.Keys == before.Keys by {
      assert Elems<Gid>([]) == {};
    }
    assert Moved(before, after) == {} by {
      assert Elems(UpdatedGids([])) == {};
    }
  }

  lemma ReconcileStill(st: StoreState, active: seq<TaskSnapshot>, waiting: seq<TaskSnapshot>)
    requires st.Valid() && Distinct(Gids(active + waiting))
    requires Reconciled(st, active, waiting).patch.IsEmpty()
    ensures Reconciled(st, active, waiting).store == st
  {
    var newLive := Elems(Gids(active + waiting));
    var after := Reconciled(st, active, waiting).store;
    LiveGids(active, waiting);
    ReconciledTellsTasks(st, active, waiting);
    SameTasks(st.tasks, after.tasks);
    assert newLive == st.Live();
    PurgeNothing(st.stoppedPages, newLive);
    WithoutNothing(st.historyOrder, newLive);
    assert st.historyOnly - newLive == st.historyOnly;
  }

  ghost predicate SameContents(before: StoreState, after: StoreState) {
    && before.tasks == after.tasks && before.activeOrder == after.activeOrder
    && before.waitingOrder == after.waitingOrder && before.stoppedOrder == after.stoppedOrder
    && before.globalStat == after.globalStat && before.stale == after.stale && before.session == after.session
  }

  lemma NoMoves(tasks: map<Gid, DownloadTask>)
    ensures Moved(tasks, tasks) == {}
  {
    forall g | g in tasks ensures g !in Moved(tasks, tasks) {
      SelfUnmoved(tasks[g]);
    }
  }

  /** An exact difference is empty when the two stores have the same contents. */
  lemma QuietPatch(before: StoreState, after: StoreState, p: StorePatch)
    requires ExactDiff(before, after, p) && SameContents(before, after)
    ensures p.IsEmpty()
  {
    NoMoves(before.tasks);
    NoElems(p.inserted);
    NoElems(UpdatedGids(p.updated));
    NoElems(p.orderChanges);
    forall c: TaskCollection ensures c !in Elems(p.orderChanges) {
      match c { case ActiveList => case WaitingList => case StoppedList => }
    }
  }

  /** Only a call that changes nothing reports nothing. */
  lemma ReconcileEmptyIffStill(st: StoreState, generation: U64, active: seq<TaskSnapshot>, waiting: seq<TaskSnapshot>)
    requires st.Valid() && ReconcileLive(st, generation, active, waiting).Applied?
    ensures ReconcileLive(st, generation, active, waiting).patch.IsEmpty()
            <==> ReconcileLive(st, generation, active, waiting).store == st
  {
    if Reconciled(st, active, waiting).patch.IsEmpty() {
      ReconcileStill(st, active, waiting);
    } else {
      ReconcileIsExactDiff(st, generation, active, waiting);
      var (after, p) := (Reconciled(st, active, waiting).store, Reconciled(st, active, waiting).patch);
      if SameContents(st, after) {
        QuietPatch(st, after, p);
      }
    }
  }

  lemma UpsertedAgain(tasks: map<Gid, DownloadTask>, s: TaskSnapshot)
    ensures Refreshed(Upserted(tasks, s), s) == Upserted(tasks, s)
  {
    if s.gid in tasks {
      RefreshedIdempotent(tasks[s.gid], s);
    } else {
      var t := DownloadTask.FromSnapshot(s);
      var full := WithDetails(WithTransfer(WithName(t, s), s), s);
      MergeIdempotent(s.metadata, s.metadata);
      assert full == t;
      SelfUnmoved(t);
    }
  }

  /** Tasks that already absorbed a list of snapshots absorb it again without a change. */
  lemma UpsertAllAgain(tasks: map<Gid, DownloadTask>, after: map<Gid, DownloadTask>, snapshots: seq<TaskSnapshot>)
    requires Distinct(Gids(snapshots)) && Elems(Gids(snapshots)) <= after.Keys
    requires forall g :: g in Elems(Gids(snapshots)) ==>
               g in UpsertAll(tasks, snapshots) && after[g] == UpsertAll(tasks, snapshots)[g]
    ensures UpsertAll(after, snapshots) == after
  {
    var gids, upserted := Gids(snapshots), UpsertAll(after, snapshots);
    UpsertAllPointwise(tasks, snapshots);
    UpsertAllPointwise(after, snapshots);
    UpsertAllKeys(after, snapshots);
    assert upserted.Keys == after.Keys;
    forall g | g in after.Keys ensures upserted[g] == after[g] {
      if g in Elems(gids) {
        var k :| 0 <= k < |gids| && gids[k] == g;
        UpsertedAgain(tasks, snapshots[k]);
      }
    }
  }

  lemma {:induction false} WithoutAll<T>(s: seq<T>, dropped: set<T>)
    requires Elems(s) <= dropped
    ensures Without(s, dropped) == []
  {
    if s != [] {
      assert Elems(s[..|s| - 1]) <= Elems(s) && s[|s| - 1] in Elems(s);
      WithoutAll(s[..|s| - 1], dropped);
    }
  }

  lemma {:induction false} StillUpdates(tasks: map<Gid, DownloadTask>, gids: seq<Gid>)
    requires Elems(gids) <= tasks.Keys
    ensures Updates(tasks, tasks, gids) == []
  {
    if gids != [] {
      assert Elems(gids[..|gids| - 1]) <= Elems(gids) && gids[|gids| - 1] in Elems(gids);
      StillUpdates(tasks, gids[..|gids| - 1]);
      SelfUnmoved(tasks[gids[|gids| - 1]]);
    }
  }

  lemma DedupFlattenPurgeTwice(pages: seq<Pages.Page>, dropped: set<Gid>)
    ensures Dedup(Flatten(Purge(Purge(pages, dropped), dropped))) == Dedup(Flatten(Purge(pages, dropped)))
  {
    FlattenPurge(pages, dropped);
    FlattenPurge(Purge(pages, dropped), dropped);
    WithoutTwice(Flatten(pages), dropped, dropped);
    assert dropped + dropped == dropped;
  }

  lemma ReconciledAgain(st: StoreState, after: StoreState, active: seq<TaskSnapshot>, waiting: seq<TaskSnapshot>)
    requires st.Valid() && Distinct(Gids(active + waiting))
    requires after == Reconciled(st, active, waiting).store && after.Valid()
    ensures Reconciled(after, active, waiting).patch.IsEmpty()
  {
    var gids := Gids(active + waiting);
    LiveGids(active, waiting);
    UpsertAllKeys(st.tasks, active + waiting);
    UpsertAllAgain(st.tasks, after.tasks, active + waiting);
    WithoutAll(gids, after.tasks.Keys);
    StillUpdates(after.tasks, gids);
    DedupFlattenPurgeTwice(st.stoppedPages, Elems(gids));
    assert after.Live() == Elems(gids);
  }

  /** Reconciling the same lists again reports nothing and keeps every revision. */
  lemma ReconcileTwice(st: StoreState, generation: U64, active: seq<TaskSnapshot>, waiting: seq<TaskSnapshot>)
    requires st.Valid() && ReconcileLive(st, generation, active, waiting).Applied?
    ensures var after := ReconcileLive(st, generation, active, waiting).store;
            var again := ReconcileLive(after, generation, active, waiting);
            again.Applied? && again.store == after && again.patch.IsEmpty()
  {
    ReconciledValid(st, active, waiting);
    var after := Reconciled(st, active, waiting).store;
    ReconciledAgain(st, after, active, waiting);
    ReconcileStill(after, active, waiting);
  }

  // ----- Every other operation

  lemma UpsertOneDiff(tasks: map<Gid, DownloadTask>, g: Gid, t: DownloadTask)
    requires g in tasks && (ChangedFields(tasks[g], t) == {} ==> t == tasks[g])
    ensures TellsTasks(tasks, tasks[g := t], [], Updates(tasks, tasks[g := t], [g]), {})
  {
    var after := tasks[g := t];
    UpdatesExact(tasks, after, [g]);
    forall h | h in tasks && h != g ensures h !in Moved(tasks, after) {
      SelfUnmoved(tasks[h]);
    }
    assert Moved(tasks, after) == Moved(tasks, after) * {g};
  }

  lemma InsertOneDiff(tasks: map<Gid, DownloadTask>, g: Gid, t: DownloadTask)
    requires g !in tasks
    ensures TellsTasks(tasks, tasks[g := t], [g], Updates(tasks, tasks[g := t], [g]), {})
  {
    var after := tasks[g := t];
    UpdatesExact(tasks, after, [g]);
    forall h | h in tasks ensures h !in Moved(tasks, after) {
      SelfUnmoved(tasks[h]);
    }
    NoElems(UpdatedGids(Updates(tasks, after, [g])));
    assert Moved(tasks, after) == {};
  }

  lemma DropDiff(tasks: map<Gid, DownloadTask>, dropped: set<Gid>)
    requires dropped <= tasks.Keys
    ensures TellsTasks(tasks, tasks - dropped, [], [], dropped)
  {
    var after := tasks - dropped;
    forall h | h in after ensures h !in Moved(tasks, after) {
      SelfUnmoved(tasks[h]);
    }
    assert Moved(tasks, after) == {};
  }

  lemma PageTellsTasks(st: StoreState, offset: U64, total: Option<U64>, kept: seq<TaskSnapshot>)
    requires st.Valid() && Distinct(Gids(kept))
    ensures var (after, p) := (PageApplied(st, offset, total, kept).store, PageApplied(st, offset, total, kept).patch);
            TellsTasks(st.tasks, after.tasks, p.inserted, p.updated, p.removed)
  {
    UpsertAllKeys(st.tasks, kept);
    UpsertKeepsAll(st.tasks, kept);
  }

  lemma RemoveTellsTasks(st: StoreState, generation: U64, gids: seq<Gid>)
    requires RemoveTasks(st, generation, gids).Applied?
    ensures var (after, p) := (RemoveTasks(st, generation, gids).store, RemoveTasks(st, generation, gids).patch);
            TellsTasks(st.tasks, after.tasks, p.inserted, p.updated, p.removed)
  {
    DropDiff(st.tasks, st.tasks.Keys * Elems(gids));
    assert st.tasks - Elems(gids) == st.tasks - st.tasks.Keys * Elems(gids);
  }

  lemma TargetTellsTasks(st: StoreState, generation: U64, gid: Gid, snapshot: Option<TaskSnapshot>)
    requires st.Valid() && ApplyTaskSnapshot(st, generation, gid, snapshot).Applied?
    ensures var (after, p) := (ApplyTaskSnapshot(st, generation, gid, snapshot).store,
                               ApplyTaskSnapshot(st, generation, gid, snapshot).patch);
            TellsTasks(st.tasks, after.tasks, p.inserted, p.updated, p.removed)
  {
    if snapshot.None? {
      RemoveTellsTasks(st, generation, [gid]);
    } else if gid in st.tasks {
      UpsertedMoves(st.tasks, snapshot.value);
      UpsertOneDiff(st.tasks, gid, Upserted(st.tasks, snapshot.value));
    } else {
      InsertOneDiff(st.tasks, gid, Upserted(st.tasks, snapshot.value));
    }
  }

  lemma RenameTellsTasks(st: StoreState, generation: U64, gid: Gid, name: string)
    requires SetCustomName(st, generation, gid, name).Applied?
    ensures var (after, p) := (SetCustomName(st, generation, gid, name).store,
                               SetCustomName(st, generation, gid, name).patch);
            TellsTasks(st.tasks, after.tasks, p.inserted, p.updated, p.removed)
  {
    var t := st.tasks[gid];
    UnchangedIffNoField(t, t.(displayName := name, nameState := Custom));
    UpsertOneDiff(st.tasks, gid, Renamed(t, name));
  }

  lemma StillTellsTasks(tasks: map<Gid, DownloadTask>)
    ensures TellsTasks(tasks, tasks, [], [], {})
  {
    NoMoves(tasks);
  }

  /** Every operation except seeding reports exactly how the tasks changed. */
  lemma PerformTellsTasks(st: StoreState, op: StoreOp)
    requires st.Valid() && Perform(st, op).Applied? && !op.Seed?
    ensures var (after, p) := (Perform(st, op).store, Perform(st, op).patch);
            TellsTasks(st.tasks, after.tasks, p.inserted, p.updated, p.removed)
  {
    match op {
      case Begin(_) => StillTellsTasks(st.tasks);
      case Reconcile(_, active, waiting) => ReconciledTellsTasks(st, active, waiting);
      case Page(_, offset, total, page) =>
        KeptDistinct(offset, total, page);
        PageTellsTasks(st, offset, total, Kept(offset, total, page));
      case Stat(_, _) => StillTellsTasks(st.tasks);
      case Target(generation, gid, snapshot) => TargetTellsTasks(st, generation, gid, snapshot);
      case Rename(generation, gid, name) => RenameTellsTasks(st, generation, gid, name);
      case Stale(_, _) => StillTellsTasks(st.tasks);
      case Remove(generation, gids) => RemoveTellsTasks(st, generation, gids);
      case Forget(_, gids) => DropDiff(st.tasks, st.historyOnly * Elems(gids));
    }
  }

  /** Operations that report a change of the local-history rows as a change of the stopped list. */
  predicate ReportsHistory(op: StoreOp) {
    op.Remove? || op.Forget? || op.Seed? || (op.Target? && op.snapshot.None?)
  }

  /** The part of a patch about orders, flags and revisions. */
  ghost predicate TellsRest(st: StoreState, after: StoreState, p: StorePatch, reportsHistory: bool) {
    && (ActiveList in p.orderChanges <==> st.activeOrder != after.activeOrder)
    && (WaitingList in p.orderChanges <==> st.waitingOrder != after.waitingOrder)
    && (StoppedList in p.orderChanges <==>
        st.stoppedOrder != after.stoppedOrder || (reportsHistory && st.historyOrder != after.historyOrder))
    && (p.globalStatChanged <==> st.globalStat != after.globalStat)
    && (p.staleChanged <==> st.stale != after.stale)
    && (p.sessionChanged <==> st.session != after.session)
    && p.storeRevision == after.revision == if p.IsEmpty() then st.revision else SatInc(st.revision)
  }

  lemma ReconciledTellsRest(st: StoreState, active: seq<TaskSnapshot>, waiting: seq<TaskSnapshot>)
    ensures TellsRest(st, Reconciled(st, active, waiting).store, Reconciled(st, active, waiting).patch, false)
  {
    ReconciledTellsOrders(st, active, waiting);
  }

  lemma PageTellsRest(st: StoreState, offset: U64, total: Option<U64>, kept: seq<TaskSnapshot>)
    ensures TellsRest(st, PageApplied(st, offset, total, kept).store, PageApplied(st, offset, total, kept).patch, false)
  {
  }

  lemma FourMarks(p: StorePatch, history: bool, active: bool, waiting: bool, stopped: bool)
    requires p.orderChanges == []
    ensures var q := p.Mark(StoppedList, history).Mark(ActiveList, active)
                      .Mark(WaitingList, waiting).Mark(StoppedList, stopped);
            && q == p.(orderChanges := q.orderChanges)
            && (ActiveList in q.orderChanges <==> active)
            && (WaitingList in q.orderChanges <==> waiting)
            && (StoppedList in q.orderChanges <==> history || stopped)
  {
  }

  lemma RemoveTellsRest(st: StoreState, generation: U64, gids: seq<Gid>)
    requires RemoveTasks(st, generation, gids).Applied?
    ensures TellsRest(st, RemoveTasks(st, generation, gids).store, RemoveTasks(st, generation, gids).patch, true)
  {
    var after := RemoveTasks(st, generation, gids).store;
    FourMarks(NewPatch(generation, st.revision).(removed := st.tasks.Keys * Elems(gids)),
              st.historyOrder != after.historyOrder, st.activeOrder != after.activeOrder,
              st.waitingOrder != after.waitingOrder, st.stoppedOrder != after.stoppedOrder);
  }

  lemma BeginTellsRest(st: StoreState, session: EngineSession)
    requires BeginSession(st, session).Applied?
    ensures TellsRest(st, BeginSession(st, session).store, BeginSession(st, session).patch, false)
  {
  }

  lemma StatTellsRest(st: StoreState, generation: U64, stat: GlobalStat)
    requires UpdateGlobalStat(st, generation, stat).Applied?
    ensures TellsRest(st, UpdateGlobalStat(st, generation, stat).store,
                      UpdateGlobalStat(st, generation, stat).patch, false)
  {
  }

  lemma StaleTellsRest(st: StoreState, generation: U64, stale: bool)
    requires SetStale(st, generation, stale).Applied?
    ensures TellsRest(st, SetStale(st, generation, stale).store, SetStale(st, generation, stale).patch, false)
  {
  }

  lemma ForgetTellsRest(st: StoreState, generation: U64, gids: seq<Gid>)
    requires RemoveHistoryOnly(st, generation, gids).Applied?
    ensures TellsRest(st, RemoveHistoryOnly(st, generation, gids).store,
                      RemoveHistoryOnly(st, generation, gids).patch, true)
  {
  }

  lemma RenameTellsRest(st: StoreState, generation: U64, gid: Gid, name: string)
    requires SetCustomName(st, generation, gid, name).Applied?
    ensures TellsRest(st, SetCustomName(st, generation, gid, name).store,
                      SetCustomName(st, generation, gid, name).patch, false)
  {
  }

  lemma TargetTellsRest(st: StoreState, generation: U64, gid: Gid, snapshot: Option<TaskSnapshot>)
    requires ApplyTaskSnapshot(st, generation, gid, snapshot).Applied?
    ensures TellsRest(st, ApplyTaskSnapshot(st, generation, gid, snapshot).store,
                      ApplyTaskSnapshot(st, generation, gid, snapshot).patch, snapshot.None?)
  {
    if snapshot.None? {
      RemoveTellsRest(st, generation, [gid]);
    }
  }

  lemma SeedTellsRest(st: StoreState, generation: U64, records: seq<HistoryRecord>)
    requires SeedLocalHistory(st, generation, records).Applied?
    ensures TellsRest(st, SeedLocalHistory(st, generation, records).store,
                      SeedLocalHistory(st, generation, records).patch, true)
  {
  }

  lemma ReconcileTellsRest(st: StoreState, generation: U64, active: seq<TaskSnapshot>, waiting: seq<TaskSnapshot>)
    requires ReconcileLive(st, generation, active, waiting).Applied?
    ensures TellsRest(st, ReconcileLive(st, generation, active, waiting).store,
                      ReconcileLive(st, generation, active, waiting).patch, false)
  {
    ReconciledTellsRest(st, active, waiting);
  }

  lemma StoppedPageTellsRest(st: StoreState, generation: U64, offset: U64, total: Option<U64>, page: seq<TaskSnapshot>)
    requires ApplyStoppedPage(st, generation, offset, total, page).Applied?
    ensures TellsRest(st, ApplyStoppedPage(st, generation, offset, total, page).store,
                      ApplyStoppedPage(st, generation, offset, total, page).patch, false)
  {
    PageTellsRest(st, offset, total, Kept(offset, total, page));
  }

  /** The orders a patch marks, its flags, and when the store revision moves, for every operation. */
  lemma PerformTellsRest(st: StoreState, op: StoreOp)
    requires Perform(st, op).Applied?
    ensures TellsRest(st, Perform(st, op).store, Perform(st, op).patch, ReportsHistory(op))
  {
    match op {
      case Begin(session) => BeginTellsRest(st, session);
      case Stat(generation, stat) => StatTellsRest(st, generation, stat);
      case Stale(generation, stale) => StaleTellsRest(st, generation, stale);
      case Rename(generation, gid, name) => RenameTellsRest(st, generation, gid, name);
      case Forget(generation, gids) => ForgetTellsRest(st, generation, gids);
      case Seed(generation, records) => SeedTellsRest(st, generation, records);
      case Target(generation, gid, snapshot) => TargetTellsRest(st, generation, gid, snapshot);
      case Remove(generation, gids) => RemoveTellsRest(st, generation, gids);
      case Reconcile(generation, active, waiting) => ReconcileTellsRest(st, generation, active, waiting);
      case Page(generation, offset, total, page) => StoppedPageTellsRest(st, generation, offset, total, page);
    }
  }

  // ----- What each operation leaves behind

  /** One more, unless nothing but the revision could differ. */
  function NextRevision(before: DownloadTask, after: DownloadTask): U64 {
    if after.(revision := before.revision) == before then before.revision else SatInc(before.revision)
  }

  /**
   The stored task shows the snapshot: its values in motion, its name unless the user chose one, its known
   metadata.
   */
  ghost predicate Reflects(t: DownloadTask, before: map<Gid, DownloadTask>, s: TaskSnapshot) {
    && t.gid == (if s.gid in before then before[s.gid].gid else s.gid) && ShowsTransfer(t, s)
    && (if s.gid in before && before[s.gid].nameState == Custom
        then t.displayName == before[s.gid].displayName && t.nameState == Custom
        else t.displayName == s.displayName && t.nameState == s.nameState)
    && t.metadata == (if s.gid in before then MergeMetadata(before[s.gid].metadata, s.metadata) else s.metadata)
    && t.revision == (if s.gid !in before then 1 else NextRevision(before[s.gid], t))
  }

  lemma UpsertedReflects(tasks: map<Gid, DownloadTask>, s: TaskSnapshot)
    ensures Reflects(Upserted(tasks, s), tasks, s)
  {
    if s.gid in tasks {
      var t := tasks[s.gid];
      UnchangedIffNoField(t, WithDetails(WithTransfer(WithName(t, s), s), s));
    }
  }

  /** Every snapshot of a reconciliation meets the task that was in the store before the call. */
  lemma ReconcileTakesSnapshots(st: StoreState, generation: U64, active: seq<TaskSnapshot>, waiting: seq<TaskSnapshot>,
                                k: nat)
    requires st.Valid() && ReconcileLive(st, generation, active, waiting).Applied? && k < |active + waiting|
    ensures var (s, after) := ((active + waiting)[k], ReconcileLive(st, generation, active, waiting).store);
            s.gid in after.tasks && Reflects(after.tasks[s.gid], st.tasks, s)
  {
    UpsertAllPointwise(st.tasks, active + waiting);
    UpsertedReflects(st.tasks, (active + waiting)[k]);
    ReconciledKeys(st, active, waiting);
    assert (active + waiting)[k].gid == Gids(active + waiting)[k];
  }

  /** The part of a page that lies below the total reported with it. */
  function Held(offset: U64, total: Option<U64>, page: seq<TaskSnapshot>): seq<Gid>
    requires total.Some? ==> offset <= total.value
  {
    if total.Some? then Gids(page)[..Min(total.value - offset, |page|)] else Gids(page)
  }

  lemma KeptIsHeld(offset: U64, total: Option<U64>, page: seq<TaskSnapshot>)
    requires total.Some? ==> offset <= total.value
    ensures Gids(Kept(offset, total, page)) == Held(offset, total, page)
  {
  }

  /**
   An accepted page is cut at the reported total, replaces the page at its offset, and drops only pages past the
   total.
   */
  lemma PageIsStored(st: StoreState, generation: U64, offset: U64, total: Option<U64>, page: seq<TaskSnapshot>)
    requires st.Valid() && ApplyStoppedPage(st, generation, offset, total, page).Applied?
    ensures total.Some? ==> offset <= total.value
    ensures var after := ApplyStoppedPage(st, generation, offset, total, page).store;
            && (forall p :: p in after.stoppedPages <==>
                  (total.Some? ==> p.offset < total.value) &&
                  (p == Pages.Page(offset, Held(offset, total, page)) || (p in st.stoppedPages && p.offset != offset)))
            && after.stoppedTotal == (if total.Some? then total else st.stoppedTotal)
  {
    KeptIsHeld(offset, total, page);
    InsertIsMapUpdate(st.stoppedPages, Pages.Page(offset, Held(offset, total, page)));
  }

  lemma PageAppliedMoves(st: StoreState, offset: U64, total: Option<U64>, kept: seq<TaskSnapshot>)
    ensures var (after, held) := (PageApplied(st, offset, total, kept).store, Elems(Gids(kept)));
            && after.Live() == st.Live() - held
            && Elems(after.historyOrder) == Elems(st.historyOrder) - held
            && after.tasks.Keys == st.tasks.Keys + held
  {
    UpsertAllKeys(st.tasks, kept);
  }

  /** Paged gids leave the live and history lists; no task is ever deleted by a page. */
  lemma PageMovesTasks(st: StoreState, generation: U64, offset: U64, total: Option<U64>, page: seq<TaskSnapshot>)
    requires st.Valid() && ApplyStoppedPage(st, generation, offset, total, page).Applied?
    ensures total.Some? ==> offset <= total.value
    ensures var after := ApplyStoppedPage(st, generation, offset, total, page).store;
            var held := Elems(Held(offset, total, page));
            && after.Live() == st.Live() - held
            && Elems(after.historyOrder) == Elems(st.historyOrder) - held
            && after.tasks.Keys == st.tasks.Keys + held
  {
    KeptIsHeld(offset, total, page);
    PageAppliedMoves(st, offset, total, Kept(offset, total, page));
  }

  lemma PageTakesSnapshots(st: StoreState, generation: U64, offset: U64, total: Option<U64>, page: seq<TaskSnapshot>,
                           k: nat)
    requires st.Valid() && ApplyStoppedPage(st, generation, offset, total, page).Applied?
    requires k < |page| && (total.Some? ==> offset + k < total.value)
    ensures var after := ApplyStoppedPage(st, generation, offset, total, page).store;
            page[k].gid in after.tasks && Reflects(after.tasks[page[k].gid], st.tasks, page[k])
  {
    var kept := Kept(offset, total, page);
    KeptDistinct(offset, total, page);
    UpsertAllPointwise(st.tasks, kept);
    UpsertedReflects(st.tasks, page[k]);
    assert kept[k] == page[k];
  }

  /** A targeted refresh takes its snapshot over and leaves every other task alone. */
  lemma TargetTakesSnapshot(st: StoreState, generation: U64, gid: Gid, s: TaskSnapshot)
    requires ApplyTaskSnapshot(st, generation, gid, Some(s)).Applied?
    ensures var after := ApplyTaskSnapshot(st, generation, gid, Some(s)).store;
            && after.tasks.Keys == st.tasks.Keys + {gid} && s.gid == gid
            && Reflects(after.tasks[gid], st.tasks, s)
            && (forall g :: g in st.tasks && g != gid ==> after.tasks[g] == st.tasks[g])
            && gid !in after.historyOrder
  {
    UpsertedReflects(st.tasks, s);
    var history := Without(st.historyOrder, {gid});
    assert gid in history <==> gid in Elems(history);
  }

  /** A rename shows under the new name, also in the search index, and leaves every other task alone. */
  lemma RenameShows(st: StoreState, generation: U64, gid: Gid, name: string)
    requires st.Valid() && SetCustomName(st, generation, gid, name).Applied?
    ensures var after := SetCustomName(st, generation, gid, name).store;
            && after.tasks.Keys == st.tasks.Keys && gid in st.tasks
            && after.tasks[gid] == st.tasks[gid].(displayName := name, nameState := Custom,
                                                  revision := NextRevision(st.tasks[gid], after.tasks[gid]))
            && after.searchIndex[gid] == st.lower(name)
            && (forall g :: g in st.tasks && g != gid ==> after.tasks[g] == st.tasks[g])
  {
    UnchangedIffNoField(st.tasks[gid], st.tasks[gid].(displayName := name, nameState := Custom));
  }

  /** Forgetting drops exactly the named history rows with their tasks, never a task the engine lists. */
  lemma ForgetDropsHistoryRows(st: StoreState, generation: U64, gids: seq<Gid>)
    requires st.Valid() && RemoveHistoryOnly(st, generation, gids).Applied?
    ensures var after := RemoveHistoryOnly(st, generation, gids).store;
            && (forall g :: g in after.tasks <==> g in st.tasks && !(g in gids && g in st.historyOrder))
            && (forall g :: g in after.tasks ==> after.tasks[g] == st.tasks[g])
            && st.Live() + Elems(st.stoppedOrder) <= after.tasks.Keys
            && after.historyOrder == Without(st.historyOrder, Elems(gids))
  {
    assert forall g :: g in st.historyOrder <==> g in Elems(st.historyOrder);
    assert forall g :: g in gids <==> g in Elems(gids);
  }

  /** Operations that may move gids between the engine's lists. */
  predicate MovesLists(op: StoreOp) {
    op.Reconcile? || op.Page? || op.Remove? || (op.Target? && op.snapshot.None?)
  }

  lemma PerformTouchesFlags(st: StoreState, op: StoreOp)
    requires Perform(st, op).Applied?
    ensures var after := Perform(st, op).store;
            && after.session == (if op.Begin? then op.session else st.session)
            && after.stale == (if op.Begin? then true else if op.Stale? then op.stale else st.stale)
  {
  }

  lemma PerformTouchesValues(st: StoreState, op: StoreOp)
    requires Perform(st, op).Applied?
    ensures var after := Perform(st, op).store;
            && after.globalStat == (if op.Stat? then op.stat else st.globalStat)
            && after.stoppedTotal == (if op.Page? && op.total.Some? then op.total else st.stoppedTotal)
            && after.categoryByGid == st.categoryByGid
  {
  }

  lemma PerformTouchesLists(st: StoreState, op: StoreOp)
    requires Perform(st, op).Applied?
    ensures var after := Perform(st, op).store;
            && (MovesLists(op) ||
                (after.activeOrder == st.activeOrder && after.waitingOrder == st.waitingOrder
                 && after.stoppedOrder == st.stoppedOrder && after.stoppedPages == st.stoppedPages))
            && (op.Begin? || op.Stat? || op.Stale? || op.Rename? ==> after.historyOrder == st.historyOrder)
            && (op.Begin? || op.Stat? || op.Stale? ==> after.tasks == st.tasks)
  {
  }

  /** What each operation decides, and what it leaves alone. */
  lemma PerformTouchesOnly(st: StoreState, op: StoreOp)
    requires Perform(st, op).Applied?
    ensures var after := Perform(st, op).store;
            && after.session == (if op.Begin? then op.session else st.session)
            && after.stale == (if op.Begin? then true else if op.Stale? then op.stale else st.stale)
            && after.globalStat == (if op.Stat? then op.stat else st.globalStat)
            && after.stoppedTotal == (if op.Page? && op.total.Some? then op.total else st.stoppedTotal)
            && after.categoryByGid == st.categoryByGid
            && (MovesLists(op) ||
                (after.activeOrder == st.activeOrder && after.waitingOrder == st.waitingOrder
                 && after.stoppedOrder == st.stoppedOrder && after.stoppedPages == st.stoppedPages))
            && (op.Begin? || op.Stat? || op.Stale? || op.Rename? ==> after.historyOrder == st.historyOrder)
            && (op.Begin? || op.Stat? || op.Stale? ==> after.tasks == st.tasks)
  {
    PerformTouchesFlags(st, op);
    PerformTouchesValues(st, op);
    PerformTouchesLists(st, op);
  }

  /** A removal leaves no trace of its gids and keeps the order of the rest. */
  lemma RemoveLeavesNoTrace(st: StoreState, generation: U64, gids: seq<Gid>)
    requires st.Valid() && RemoveTasks(st, generation, gids).Applied?
    ensures var after := RemoveTasks(st, generation, gids).store;
            && after.tasks == st.tasks - Elems(gids)
            && after.activeOrder == Without(st.activeOrder, Elems(gids))
            && after.waitingOrder == Without(st.waitingOrder, Elems(gids))
            && after.stoppedOrder == Without(st.stoppedOrder, Elems(gids))
            && after.historyOrder == Without(st.historyOrder, Elems(gids))
  {
    FlattenPurge(st.stoppedPages, Elems(gids));
    DedupWithout(Flatten(st.stoppedPages), Elems(gids));
  }

  /** A new session turns away everything that still carries the old generation. */
  lemma OldGenerationRejected(st: StoreState, session: EngineSession, op: StoreOp)
    requires BeginSession(st, session).Applied? && session.generation != st.session.generation
    requires !op.Begin? && op.generation == st.session.generation
    ensures var after := BeginSession(st, session).store;
            && Perform(after, op) == Rejected(StaleGeneration(session.generation, st.session.generation))
            && after.stale && after.tasks == st.tasks && after.Listed() == st.Listed()
  {
  }

  // ----- Seeding, whose patch is deliberately not a difference

  /** The gids a list mentions after they were already there, or more than once. */
  ghost predicate Again(known: set<Gid>, gids: seq<Gid>, g: Gid) {
    g in gids && (g in known || exists i, j :: 0 <= i < j < |gids| && gids[i] == g == gids[j])
  }

  lemma {:induction false} ReseenExact(known: set<Gid>, gids: seq<Gid>)
    ensures forall g :: g in Reseen(known, gids) <==> Again(known, gids, g)
  {
    if gids != [] {
      var init, last := gids[..|gids| - 1], gids[|gids| - 1];
      assert gids == init + [last];
      ReseenExact(known, init);
      forall g ensures Again(known, gids, g) <==> Again(known, init, g) || (g == last && (g in known || g in init)) {
        if g !in known && Again(known, init, g) {
          var i, j :| 0 <= i < j < |init| && init[i] == g == init[j];
          assert gids[i] == g == gids[j];
        }
        if g == last && g in init {
          var i :| 0 <= i < |init| && init[i] == g;
          assert gids[i] == g == gids[|init|];
        }
        if g !in known && Again(known, gids, g) {
          var i, j :| 0 <= i < j < |gids| && gids[i] == g == gids[j];
          assert init[i] == g;
        }
      }
    }
  }

  /** The record that decides a seeded task. */
  function LastRow(rows: seq<HistoryRecord>, g: Gid): (r: HistoryRecord)
    requires g in RowGids(rows)
    ensures r in rows && r.gid == g
  {
    var init, last := rows[..|rows| - 1], rows[|rows| - 1];
    assert RowGids(rows) == RowGids(init) + [last.gid];
    if last.gid == g then last else LastRow(init, g)
  }

  lemma {:induction false} SeedTasksPointwise(tasks: map<Gid, DownloadTask>, rows: seq<HistoryRecord>, g: Gid)
    requires g in SeedTasks(tasks, rows)
    ensures g !in RowGids(rows) ==> g in tasks && SeedTasks(tasks, rows)[g] == tasks[g]
    ensures g in RowGids(rows) ==> SeedTasks(tasks, rows)[g] == FromHistory(LastRow(rows, g))
  {
    if rows != [] {
      var init, last := rows[..|rows| - 1], rows[|rows| - 1];
      assert RowGids(rows) == RowGids(init) + [last.gid];
      if g != last.gid {
        SeedTasksPointwise(tasks, init, g);
      }
    }
  }

  /**
   Seeding inserts what is new and removes nothing, but reports every row it meets again as rewritten,
   whether or not the task changed.
   */
  lemma SeedReports(st: StoreState, generation: U64, records: seq<HistoryRecord>)
    requires SeedLocalHistory(st, generation, records).Applied?
    ensures var (after, p) := (SeedLocalHistory(st, generation, records).store,
                               SeedLocalHistory(st, generation, records).patch);
            && Distinct(p.inserted) && Elems(p.inserted) == after.tasks.Keys - st.tasks.Keys
            && st.tasks.Keys <= after.tasks.Keys && p.removed == {}
            && Distinct(UpdatedGids(p.updated))
            && (forall g :: g in UpdatedGids(p.updated) <==> Again(st.tasks.Keys, RowGids(SeedRows(st, records)), g))
            && (forall u :: u in p.updated ==> u.fields == ALL_FIELDS && u.taskRevision == 1)
  {
    var gids := RowGids(SeedRows(st, records));
    var seen := Reseen(st.tasks.Keys, gids);
    DedupDistinct(gids);
    WithoutDistinct(Dedup(gids), st.tasks.Keys);
    DedupDistinct(seen);
    ReseenExact(st.tasks.Keys, gids);
    assert UpdatedGids(Overwritten(Dedup(seen))) == Dedup(seen);
    assert forall g :: g in Dedup(seen) <==> g in Elems(Dedup(seen));
    assert forall g :: g in seen <==> g in Elems(seen);
  }

  /** Seeding rewrites the tasks that have a row, last record first, and nothing the engine lists. */
  lemma SeedTouchesRowsOnly(st: StoreState, generation: U64, records: seq<HistoryRecord>, g: Gid)
    requires SeedLocalHistory(st, generation, records).Applied?
    ensures var (after, rows) := (SeedLocalHistory(st, generation, records).store, SeedRows(st, records));
            && (g in RowGids(rows) ==> g in after.tasks && after.tasks[g] == FromHistory(LastRow(rows, g))
                                       && g in after.historyOrder)
            && (g !in RowGids(rows) ==> (g in after.tasks <==> g in st.tasks) && g !in after.historyOrder)
            && (g !in RowGids(rows) && g in st.tasks ==> after.tasks[g] == st.tasks[g])
            && (g in st.Live() || g in st.stoppedOrder ==> g !in RowGids(rows))
            && after.activeOrder == st.activeOrder && after.waitingOrder == st.waitingOrder
            && after.stoppedOrder == st.stoppedOrder && after.stoppedPages == st.stoppedPages
  {
    var rows := SeedRows(st, records);
    SeedRowsFacts(st, records);
    assert g in RowGids(rows) <==> g in Elems(RowGids(rows));
    assert g in Dedup(RowGids(rows)) <==> g in Elems(Dedup(RowGids(rows)));
    if g in SeedTasks(st.tasks, rows) {
      SeedTasksPointwise(st.tasks, rows, g);
    }
  }

  lemma {:induction false} SeedRowsStable(a: StoreState, b: StoreState, records: seq<HistoryRecord>)
    requires a.session.profileId == b.session.profileId
    requires a.Live() == b.Live() && Elems(a.stoppedOrder) == Elems(b.stoppedOrder)
    ensures SeedRows(a, records) == SeedRows(b, records)
  {
    if records != [] {
      SeedRowsStable(a, b, records[..|records| - 1]);
    }
  }

  /** Seeding the same records again is quiet exactly when none of them is a history row. */
  lemma ReseedQuietIffNoRows(st: StoreState, generation: U64, records: seq<HistoryRecord>)
    requires st.Valid() && SeedLocalHistory(st, generation, records).Applied?
    ensures var after := SeedLocalHistory(st, generation, records).store;
            SeedLocalHistory(after, generation, records).patch.IsEmpty() <==> SeedRows(st, records) == []
  {
    var after := SeedLocalHistory(st, generation, records).store;
    var rows := SeedRows(st, records);
    SeedRowsStable(st, after, records);
    var gids := RowGids(rows);
    var again := SeedLocalHistory(after, generation, records).patch;
    if rows == [] {
      assert again.updated == [];
    } else {
      assert gids[0] in gids && gids[0] in Elems(gids);
      ReseenExact(after.tasks.Keys, gids);
      assert gids[0] in Elems(Reseen(after.tasks.Keys, gids));
      NoElems(Dedup(Reseen(after.tasks.Keys, gids)));
    }
  }
}
