/**
 The download store as a value: what each operation does to the whole store at once.
 The class in `store.dfy` performs the same operations step by step and is proved against these.
 */
module StoreSpec {
  import opened Prelude
  import opened Seqs
  import opened Tasks
  import opened Pages

  datatype EngineSession = EngineSession(profileId: nat, sessionId: nat, generation: U64)

  datatype GlobalStat = GlobalStat(
    downloadSpeed: ByteRate, uploadSpeed: ByteRate, activeTasks: U32, waitingTasks: U32, stoppedTasks: U64)

  datatype HistoryRecord = HistoryRecord(
    profileId: nat,
    gid: Gid,
    status: DownloadStatus,
    displayName: string,
    directory: Option<string>,
    infoHash: Option<string>,
    sourceKind: TaskSourceKind,
    totalLength: ByteCount,
    completedLength: ByteCount,
    error: Option<TaskError>,
    primaryUri: Option<string>)

  datatype TaskCollection = ActiveList | WaitingList | StoppedList

  datatype TaskFieldPatch = TaskFieldPatch(gid: Gid, fields: set<TaskField>, taskRevision: U64)

  datatype StorePatch = StorePatch(
    generation: U64,
    storeRevision: U64,
    inserted: seq<Gid>,
    updated: seq<TaskFieldPatch>,
    removed: set<Gid>,
    orderChanges: seq<TaskCollection>,
    globalStatChanged: bool,
    staleChanged: bool,
    sessionChanged: bool)
  {
    predicate IsEmpty() {
      inserted == [] && updated == [] && removed == {} && orderChanges == [] &&
      !globalStatChanged && !staleChanged && !sessionChanged
    }

    function Mark(collection: TaskCollection, changed: bool): StorePatch {
      if changed && collection !in orderChanges
      then this.(orderChanges := orderChanges + [collection]) else this
    }
  }

  function NewPatch(generation: U64, revision: U64): StorePatch {
    StorePatch(generation, revision, [], [], {}, [], false, false, false)
  }

  function NameIndex(tasks: map<Gid, DownloadTask>, lower: string -> string): map<Gid, string> {
    map g | g in tasks :: lower(tasks[g].displayName)
  }

  datatype StoreError =
    | StaleGeneration(expected: U64, received: U64)
    | DuplicateGid(gid: Gid)
    | InvalidStoppedPage(offset: U64, total: U64)
    | WrongProfile(expectedProfile: nat, receivedProfile: nat)
    | TargetedGidMismatch(expectedGid: Gid, receivedGid: Gid)
    | TaskNotFound(missing: Gid)
    | TaskUpdate(cause: TaskUpdateError)

  /** `lower` is full Unicode lower-casing, which the model leaves open. */
  datatype StoreState = StoreState(
    session: EngineSession,
    tasks: map<Gid, DownloadTask>,
    activeOrder: seq<Gid>,
    waitingOrder: seq<Gid>,
    stoppedOrder: seq<Gid>,
    historyOrder: seq<Gid>,
    historyOnly: set<Gid>,
    categoryByGid: map<Gid, string>,
    stoppedPages: seq<Page>,
    stoppedTotal: Option<U64>,
    searchIndex: map<Gid, string>,
    globalStat: GlobalStat,
    stale: bool,
    revision: U64,
    lower: string -> string)
  {
    function Live(): set<Gid> {
      Elems(activeOrder) + Elems(waitingOrder)
    }

    function Listed(): set<Gid> {
      Live() + Elems(stoppedOrder) + Elems(historyOrder)
    }

    /** The representation invariant every operation keeps. */
    ghost predicate Valid() {
      && Distinct(activeOrder) && Distinct(waitingOrder) && Distinct(historyOrder)
      && Elems(activeOrder) !! Elems(waitingOrder) !! Elems(stoppedOrder) !! Elems(historyOrder)
      && Listed() <= tasks.Keys
      && (forall g :: g in tasks ==> tasks[g].gid == g)
      && historyOnly == Elems(historyOrder)
      && Sorted(stoppedPages)
      && stoppedOrder == Dedup(Flatten(stoppedPages))
      && searchIndex == NameIndex(tasks, lower)
    }
  }

  datatype Outcome = Applied(store: StoreState, patch: StorePatch) | Rejected(error: StoreError)

  function NewStore(session: EngineSession, lower: string -> string): StoreState {
    StoreState(session, map[], [], [], [], [], {}, map[], [], None, map[], GlobalStat(0, 0, 0, 0, 0), false, 0, lower)
  }

  // ----- Derived data

  /** Before the first total arrives only the initial page may be requested. */
  predicate CanLoadMore(st: StoreState) {
    match st.stoppedTotal
    case Some(total) => NextOffset(st.stoppedPages, 0) < total
    case None => st.stoppedPages == []
  }

  function Gids(snapshots: seq<TaskSnapshot>): (r: seq<Gid>)
    ensures |r| == |snapshots| && forall i :: 0 <= i < |r| ==> r[i] == snapshots[i].gid
  {
    seq(|snapshots|, i requires 0 <= i < |snapshots| => snapshots[i].gid)
  }

  /** The first gid that already occurred. */
  function FirstDuplicate(gids: seq<Gid>): (r: Option<Gid>)
    ensures r.None? <==> Distinct(gids)
  {
    if gids == [] then None
    else
      var init := gids[..|gids| - 1];
      match FirstDuplicate(init)
      case Some(g) =>
        assert !Distinct(init);
        Some(g)
      case None => if gids[|init|] in init then Some(gids[|init|]) else None
  }

  function Upserted(tasks: map<Gid, DownloadTask>, s: TaskSnapshot): DownloadTask {
    if s.gid in tasks then Refreshed(tasks[s.gid], s) else DownloadTask.FromSnapshot(s)
  }

  function UpsertAll(tasks: map<Gid, DownloadTask>, snapshots: seq<TaskSnapshot>): map<Gid, DownloadTask> {
    if snapshots == [] then tasks
    else
      var before, last := UpsertAll(tasks, snapshots[..|snapshots| - 1]), snapshots[|snapshots| - 1];
      before[last.gid := Upserted(before, last)]
  }

  /** The field patches between two task maps, in the given order. */
  function Updates(before: map<Gid, DownloadTask>, after: map<Gid, DownloadTask>, gids: seq<Gid>): seq<TaskFieldPatch>
    requires Elems(gids) <= after.Keys
  {
    if gids == [] then []
    else
      var init, g := gids[..|gids| - 1], gids[|gids| - 1];
      assert Elems(init) <= Elems(gids) && g in Elems(gids);
      var rest := Updates(before, after, init);
      if g in before && ChangedFields(before[g], after[g]) != {}
      then rest + [TaskFieldPatch(g, ChangedFields(before[g], after[g]), after[g].revision)]
      else rest
  }

  /** A patch that reports something moves the store revision, an empty one does not. */
  function FinishedPatch(revision: U64, patch: StorePatch): StorePatch {
    patch.(storeRevision := if patch.IsEmpty() then revision else SatInc(revision))
  }

  function Finish(st: StoreState, patch: StorePatch): Outcome {
    var finished := FinishedPatch(st.revision, patch);
    Applied(st.(revision := finished.storeRevision), finished)
  }

  // ----- Operations

  function BeginSession(st: StoreState, session: EngineSession): Outcome {
    if session.profileId != st.session.profileId
    then Rejected(WrongProfile(st.session.profileId, session.profileId))
    else
      Finish(st.(session := session, stale := true),
             NewPatch(session.generation, st.revision)
             .(sessionChanged := st.session != session, staleChanged := !st.stale))
  }

  lemma {:induction false} UpsertAllKeys(tasks: map<Gid, DownloadTask>, snapshots: seq<TaskSnapshot>)
    ensures UpsertAll(tasks, snapshots).Keys == tasks.Keys + Elems(Gids(snapshots))
  {
    if snapshots != [] {
      var init, last := snapshots[..|snapshots| - 1], snapshots[|snapshots| - 1];
      UpsertAllKeys(tasks, init);
      assert Gids(snapshots) == Gids(init) + [last.gid];
      ElemsConcat(Gids(init), [last.gid]);
    }
  }

  function Reconciled(st: StoreState, active: seq<TaskSnapshot>, waiting: seq<TaskSnapshot>): Outcome {
    var gids := Gids(active + waiting);
    var newLive := Elems(gids);
    var removed := st.Live() - newLive;
    var upserted := UpsertAll(st.tasks, active + waiting);
    UpsertAllKeys(st.tasks, active + waiting);
    var tasks := upserted - removed;
    var pages := Purge(st.stoppedPages, newLive);
    var stopped := Dedup(Flatten(pages));
    Finish(
      st.(tasks := tasks,
          searchIndex := NameIndex(tasks, st.lower),
          activeOrder := Gids(active),
          waitingOrder := Gids(waiting),
          stoppedOrder := stopped,
          stoppedPages := pages,
          historyOrder := Without(st.historyOrder, newLive),
          historyOnly := st.historyOnly - newLive),
      NewPatch(st.session.generation, st.revision)
      .(inserted := Without(gids, st.tasks.Keys),
        updated := Updates(st.tasks, upserted, gids))
      .Mark(StoppedList, st.stoppedOrder != stopped)
      .(removed := removed)
      .Mark(ActiveList, st.activeOrder != Gids(active))
      .Mark(WaitingList, st.waitingOrder != Gids(waiting)))
  }

  function ReconcileLive(st: StoreState, generation: U64, active: seq<TaskSnapshot>,
                         waiting: seq<TaskSnapshot>): Outcome {
    if generation != st.session.generation then Rejected(StaleGeneration(st.session.generation, generation))
    else match FirstDuplicate(Gids(active + waiting))
      case Some(g) => Rejected(DuplicateGid(g))
      case None => Reconciled(st, active, waiting)
  }

  /** A page never reaches past the total reported with it. */
  function Kept(offset: U64, total: Option<U64>, snapshots: seq<TaskSnapshot>): seq<TaskSnapshot> {
    if total.Some? then snapshots[..Min(SatSub(total.value, offset), |snapshots|)] else snapshots
  }

  function PagesWith(pages: seq<Page>, offset: U64, total: Option<U64>, gids: seq<Gid>): seq<Page> {
    var inserted := Insert(pages, Page(offset, gids));
    if total.Some? then Below(inserted, total.value) else inserted
  }

  function PageApplied(st: StoreState, offset: U64, total: Option<U64>, kept: seq<TaskSnapshot>): Outcome {
    var gids := Gids(kept);
    var paged := Elems(gids);
    var tasks := UpsertAll(st.tasks, kept);
    UpsertAllKeys(st.tasks, kept);
    var active, waiting := Without(st.activeOrder, paged), Without(st.waitingOrder, paged);
    var pages := PagesWith(st.stoppedPages, offset, total, gids);
    var stopped := Dedup(Flatten(pages));
    Finish(
      st.(tasks := tasks,
          searchIndex := NameIndex(tasks, st.lower),
          activeOrder := active,
          waitingOrder := waiting,
          stoppedOrder := stopped,
          stoppedPages := pages,
          stoppedTotal := if total.Some? then total else st.stoppedTotal,
          historyOrder := Without(st.historyOrder, paged),
          historyOnly := st.historyOnly - paged),
      NewPatch(st.session.generation, st.revision)
      .(inserted := Without(gids, st.tasks.Keys),
        updated := Updates(st.tasks, tasks, gids))
      .Mark(ActiveList, st.activeOrder != active)
      .Mark(WaitingList, st.waitingOrder != waiting)
      .Mark(StoppedList, st.stoppedOrder != stopped))
  }

  function ApplyStoppedPage(st: StoreState, generation: U64, offset: U64, total: Option<U64>,
                            snapshots: seq<TaskSnapshot>): Outcome {
    if generation != st.session.generation then Rejected(StaleGeneration(st.session.generation, generation))
    else match FirstDuplicate(Gids(snapshots))
      case Some(g) => Rejected(DuplicateGid(g))
      case None =>
        if total.Some? && offset > total.value then Rejected(InvalidStoppedPage(offset, total.value))
        else PageApplied(st, offset, total, Kept(offset, total, snapshots))
  }

  function UpdateGlobalStat(st: StoreState, generation: U64, stat: GlobalStat): Outcome {
    if generation != st.session.generation then Rejected(StaleGeneration(st.session.generation, generation))
    else Finish(st.(globalStat := stat),
                NewPatch(generation, st.revision).(globalStatChanged := st.globalStat != stat))
  }

  function RemoveTasks(st: StoreState, generation: U64, gids: seq<Gid>): Outcome {
    if generation != st.session.generation then Rejected(StaleGeneration(st.session.generation, generation))
    else
      var dropped := Elems(gids);
      var tasks := st.tasks - dropped;
      var active, waiting := Without(st.activeOrder, dropped), Without(st.waitingOrder, dropped);
      var history := Without(st.historyOrder, dropped);
      var pages := Purge(st.stoppedPages, dropped);
      var stopped := Dedup(Flatten(pages));
      Finish(
        st.(tasks := tasks,
            searchIndex := NameIndex(tasks, st.lower),
            activeOrder := active,
            waitingOrder := waiting,
            stoppedOrder := stopped,
            stoppedPages := pages,
            historyOrder := history,
            historyOnly := st.historyOnly - dropped),
        NewPatch(generation, st.revision)
        .(removed := st.tasks.Keys * dropped)
        .Mark(StoppedList, st.historyOrder != history)
        .Mark(ActiveList, st.activeOrder != active)
        .Mark(WaitingList, st.waitingOrder != waiting)
        .Mark(StoppedList, st.stoppedOrder != stopped))
  }

  function ApplyTaskSnapshot(st: StoreState, generation: U64, gid: Gid, snapshot: Option<TaskSnapshot>): Outcome {
    if generation != st.session.generation then Rejected(StaleGeneration(st.session.generation, generation))
    else if snapshot.None? then RemoveTasks(st, generation, [gid])
    else if snapshot.value.gid != gid then Rejected(TargetedGidMismatch(gid, snapshot.value.gid))
    else
      var tasks := st.tasks[gid := Upserted(st.tasks, snapshot.value)];
      Finish(
        st.(tasks := tasks,
            searchIndex := NameIndex(tasks, st.lower),
            historyOrder := Without(st.historyOrder, {gid}),
            historyOnly := st.historyOnly - {gid}),
        NewPatch(generation, st.revision)
        .(inserted := if gid in st.tasks then [] else [gid], updated := Updates(st.tasks, tasks, [gid])))
  }

  function SetCustomName(st: StoreState, generation: U64, gid: Gid, name: string): Outcome {
    if generation != st.session.generation then Rejected(StaleGeneration(st.session.generation, generation))
    else if gid !in st.tasks then Rejected(TaskNotFound(gid))
    else
      var tasks := st.tasks[gid := Renamed(st.tasks[gid], name)];
      Finish(st.(tasks := tasks, searchIndex := NameIndex(tasks, st.lower)),
             NewPatch(generation, st.revision).(updated := Updates(st.tasks, tasks, [gid])))
  }

  function SetStale(st: StoreState, generation: U64, stale: bool): Outcome {
    if generation != st.session.generation then Rejected(StaleGeneration(st.session.generation, generation))
    else Finish(st.(stale := stale), NewPatch(generation, st.revision).(staleChanged := st.stale != stale))
  }

  function RemoveHistoryOnly(st: StoreState, generation: U64, gids: seq<Gid>): Outcome {
    if generation != st.session.generation then Rejected(StaleGeneration(st.session.generation, generation))
    else
      var removed := st.historyOnly * Elems(gids);
      var tasks := st.tasks - removed;
      var history := Without(st.historyOrder, Elems(gids));
      Finish(
        st.(tasks := tasks,
            searchIndex := NameIndex(tasks, st.lower),
            historyOrder := history,
            historyOnly := st.historyOnly - Elems(gids)),
        NewPatch(generation, st.revision)
        .(removed := removed)
        .Mark(StoppedList, st.historyOrder != history))
  }

  // ----- Seeding from durable history

  function FromHistory(r: HistoryRecord): DownloadTask {
    DownloadTask(r.gid, r.status, r.displayName, Resolved, r.totalLength, r.completedLength, 0, 0, 0, 0, r.error,
                 TaskMetadata(r.directory, r.primaryUri, r.infoHash, 0, [], None, r.sourceKind), 1)
  }

  /** The record may become a history-only row of this store. */
  predicate Seeds(st: StoreState, r: HistoryRecord) {
    r.profileId == st.session.profileId && r.status in {Complete, Error} &&
    r.gid !in st.Live() && r.gid !in Elems(st.stoppedOrder)
  }

  function SeedRows(st: StoreState, records: seq<HistoryRecord>): seq<HistoryRecord> {
    if records == [] then []
    else
      var rest, last := SeedRows(st, records[..|records| - 1]), records[|records| - 1];
      if Seeds(st, last) then rest + [last] else rest
  }

  function RowGids(rows: seq<HistoryRecord>): (r: seq<Gid>)
    ensures |r| == |rows| && forall i :: 0 <= i < |r| ==> r[i] == rows[i].gid
  {
    seq(|rows|, i requires 0 <= i < |rows| => rows[i].gid)
  }

  function SeedTasks(tasks: map<Gid, DownloadTask>, rows: seq<HistoryRecord>): (r: map<Gid, DownloadTask>)
    ensures r.Keys == tasks.Keys + Elems(RowGids(rows))
  {
    if rows == [] then tasks
    else
      var init, last := rows[..|rows| - 1], rows[|rows| - 1];
      assert RowGids(rows) == RowGids(init) + [last.gid];
      ElemsConcat(RowGids(init), [last.gid]);
      SeedTasks(tasks, init)[last.gid := FromHistory(last)]
  }

  /** The occurrences, in order, of gids that were present before their turn came. */
  function Reseen(known: set<Gid>, gids: seq<Gid>): seq<Gid> {
    if gids == [] then []
    else
      var init, g := gids[..|gids| - 1], gids[|gids| - 1];
      if g in known || g in init then Reseen(known, init) + [g] else Reseen(known, init)
  }

  const ALL_FIELDS: set<TaskField> := set f: TaskField | true

  function Overwritten(gids: seq<Gid>): (r: seq<TaskFieldPatch>)
    ensures |r| == |gids| && forall i :: 0 <= i < |r| ==> r[i] == TaskFieldPatch(gids[i], ALL_FIELDS, 1)
  {
    seq(|gids|, i requires 0 <= i < |gids| => TaskFieldPatch(gids[i], ALL_FIELDS, 1))
  }

  function SeedLocalHistory(st: StoreState, generation: U64, records: seq<HistoryRecord>): Outcome {
    if generation != st.session.generation then Rejected(StaleGeneration(st.session.generation, generation))
    else
      var rows := SeedRows(st, records);
      var gids := RowGids(rows);
      var tasks := SeedTasks(st.tasks, rows);
      var history := Dedup(gids);
      Finish(
        st.(tasks := tasks,
            searchIndex := NameIndex(tasks, st.lower),
            historyOrder := history,
            historyOnly := Elems(gids)),
        NewPatch(generation, st.revision)
        .(inserted := Without(history, st.tasks.Keys),
          updated := Overwritten(Dedup(Reseen(st.tasks.Keys, gids))))
        .Mark(StoppedList, st.historyOrder != history))
  }

  // ----- Category affiliations

  function Affiliations(affiliations: seq<(Gid, string)>): map<Gid, string> {
    if affiliations == [] then map[]
    else
      var rest, last := Affiliations(affiliations[..|affiliations| - 1]), affiliations[|affiliations| - 1];
      if last.1 == "" then rest else rest[last.0 := last.1]
  }

  function SetCategories(st: StoreState, affiliations: seq<(Gid, string)>): StoreState {
    st.(categoryByGid := Affiliations(affiliations))
  }

  predicate Affiliates(affiliations: seq<(Gid, string)>, g: Gid, i: int) {
    0 <= i < |affiliations| && affiliations[i].0 == g && affiliations[i].1 != ""
  }

  /** A gid has the last category given to it that is not empty, and no category if there is none. */
  lemma {:induction false} AffiliationsLastWins(affiliations: seq<(Gid, string)>, g: Gid)
    ensures g in Affiliations(affiliations) <==> exists i :: Affiliates(affiliations, g, i)
    ensures forall i :: Affiliates(affiliations, g, i) && (forall j :: i < j ==> !Affiliates(affiliations, g, j)) ==>
              g in Affiliations(affiliations) && Affiliations(affiliations)[g] == affiliations[i].1
  {
    if affiliations != [] {
      var init, last := affiliations[..|affiliations| - 1], |affiliations| - 1;
      AffiliationsLastWins(init, g);
      assert forall i :: Affiliates(init, g, i) <==> Affiliates(affiliations, g, i) && i < last;
      assert Affiliates(affiliations, g, last) <==> affiliations[last].0 == g && affiliations[last].1 != "";
    }
  }

  function SetCategory(st: StoreState, gid: Gid, category: Option<string>): StoreState {
    st.(categoryByGid := if category.Some? && category.value != "" then st.categoryByGid[gid := category.value]
                         else st.categoryByGid - {gid})
  }

  // ----- Facts about the building blocks

  /** Tasks that no snapshot mentions stay as they are. */
  lemma {:induction false} UpsertAllUntouched(tasks: map<Gid, DownloadTask>, snapshots: seq<TaskSnapshot>)
    ensures forall g :: g !in Elems(Gids(snapshots)) ==>
              (g in UpsertAll(tasks, snapshots) <==> g in tasks) &&
              (g in tasks ==> UpsertAll(tasks, snapshots)[g] == tasks[g])
  {
    if snapshots != [] {
      var init, last := snapshots[..|snapshots| - 1], snapshots[|snapshots| - 1];
      UpsertAllUntouched(tasks, init);
      assert Gids(snapshots) == Gids(init) + [last.gid];
      ElemsConcat(Gids(init), [last.gid]);
    }
  }

  lemma {:induction false} UpsertAllAt(tasks: map<Gid, DownloadTask>, snapshots: seq<TaskSnapshot>, k: nat)
    requires Distinct(Gids(snapshots)) && k < |snapshots|
    ensures snapshots[k].gid in UpsertAll(tasks, snapshots)
    ensures UpsertAll(tasks, snapshots)[snapshots[k].gid] == Upserted(tasks, snapshots[k])
  {
    var init, gids := snapshots[..|snapshots| - 1], Gids(snapshots);
    assert Gids(init) == gids[..|init|];
    if k < |init| {
      UpsertAllAt(tasks, init, k);
      assert gids[k] != gids[|init|];
    } else {
      UpsertAllUntouched(tasks, init);
      assert gids[k] !in Elems(Gids(init));
    }
  }

  /** With distinct gids every snapshot meets the task it found in the store, whatever the order. */
  lemma UpsertAllPointwise(tasks: map<Gid, DownloadTask>, snapshots: seq<TaskSnapshot>)
    requires Distinct(Gids(snapshots))
    ensures forall k :: 0 <= k < |snapshots| ==>
              snapshots[k].gid in UpsertAll(tasks, snapshots) &&
              UpsertAll(tasks, snapshots)[snapshots[k].gid] == Upserted(tasks, snapshots[k])
    ensures forall g :: g in tasks && g !in Elems(Gids(snapshots)) ==>
              g in UpsertAll(tasks, snapshots) && UpsertAll(tasks, snapshots)[g] == tasks[g]
  {
    UpsertAllUntouched(tasks, snapshots);
    forall k | 0 <= k < |snapshots|
      ensures snapshots[k].gid in UpsertAll(tasks, snapshots)
      ensures UpsertAll(tasks, snapshots)[snapshots[k].gid] == Upserted(tasks, snapshots[k])
    {
      UpsertAllAt(tasks, snapshots, k);
    }
  }

  lemma UpdatesOne(before: map<Gid, DownloadTask>, after: map<Gid, DownloadTask>, g: Gid)
    requires g in after
    ensures Updates(before, after, [g])
            == if g in before && ChangedFields(before[g], after[g]) != {}
               then [TaskFieldPatch(g, ChangedFields(before[g], after[g]), after[g].revision)] else []
  {
    assert [g][..0] == [];
  }

  lemma UpdatesSnoc(before: map<Gid, DownloadTask>, after: map<Gid, DownloadTask>, gids: seq<Gid>, g: Gid)
    requires Elems(gids) <= after.Keys && g in after
    ensures Elems(gids + [g]) <= after.Keys
    ensures Updates(before, after, gids + [g]) == Updates(before, after, gids) + Updates(before, after, [g])
  {
    ElemsConcat(gids, [g]);
    assert (gids + [g])[..|gids|] == gids;
    UpdatesOne(before, after, g);
  }

  function UpdatedGids(updated: seq<TaskFieldPatch>): (r: seq<Gid>)
    ensures |r| == |updated| && forall i :: 0 <= i < |r| ==> r[i] == updated[i].gid
  {
    seq(|updated|, i requires 0 <= i < |updated| => updated[i].gid)
  }

  /** The tasks of both maps that differ in some reported field. */
  function Moved(before: map<Gid, DownloadTask>, after: map<Gid, DownloadTask>): set<Gid> {
    set g | g in before && g in after && ChangedFields(before[g], after[g]) != {}
  }

  /** A field patch tells exactly how its task changed. */
  ghost predicate Tells(u: TaskFieldPatch, before: map<Gid, DownloadTask>, after: map<Gid, DownloadTask>) {
    u.gid in before && u.gid in after &&
    u.fields == ChangedFields(before[u.gid], after[u.gid]) && u.taskRevision == after[u.gid].revision
  }

  lemma {:induction false} UpdatesExact(before: map<Gid, DownloadTask>, after: map<Gid, DownloadTask>, gids: seq<Gid>)
    requires Distinct(gids) && Elems(gids) <= after.Keys
    ensures var us := Updates(before, after, gids);
            && Distinct(UpdatedGids(us))
            && Elems(UpdatedGids(us)) == Moved(before, after) * Elems(gids)
            && forall u :: u in us ==> Tells(u, before, after)
  {
    if gids != [] {
      var init, g := gids[..|gids| - 1], gids[|gids| - 1];
      assert Elems(gids) == Elems(init) + {g};
      UpdatesExact(before, after, init);
      var rest, us := Updates(before, after, init), Updates(before, after, gids);
      if g in Moved(before, after) {
        assert UpdatedGids(us) == UpdatedGids(rest) + [g];
        ElemsConcat(UpdatedGids(rest), [g]);
        assert g !in Elems(init);
        DistinctAppend(UpdatedGids(rest), g);
      }
    }
  }
}
