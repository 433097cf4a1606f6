/** The incremental download store: fields updated in place, proved against `StoreSpec`. */
module Store {
  import opened Prelude
  import opened Seqs
  import opened Tasks
  import opened Pages
  import opened StoreSpec
  import opened StoreProps

  lemma {:induction false} FirstDuplicateStays(gids: seq<Gid>, k: nat)
    requires k <= |gids| && FirstDuplicate(gids[..k]).Some?
    ensures FirstDuplicate(gids) == FirstDuplicate(gids[..k])
  {
    if k == |gids| {
      assert gids[..k] == gids;
    } else {
      assert gids[..|gids| - 1][..k] == gids[..k];
      FirstDuplicateStays(gids[..|gids| - 1], k);
    }
  }

  /** Fails on the first gid that occurs twice. */
  method ValidateUnique(snapshots: seq<TaskSnapshot>) returns (duplicate: Option<Gid>)
    ensures duplicate == FirstDuplicate(Gids(snapshots))
    ensures duplicate.None? <==> Distinct(Gids(snapshots))
    ensures duplicate.Some? ==>
              exists i, j :: 0 <= i < j < |snapshots| && snapshots[i].gid == snapshots[j].gid == duplicate.value
  {
    var seen: set<Gid> := {};
    ghost var gids := Gids(snapshots);
    for k := 0 to |snapshots|
      invariant seen == Elems(gids[..k])
      invariant FirstDuplicate(gids[..k]).None?
    {
      assert gids[..k + 1] == gids[..k] + [gids[k]];
      assert gids[..k + 1][..k] == gids[..k];
      if snapshots[k].gid in seen {
        ghost var i :| 0 <= i < k && gids[i] == gids[k];
        FirstDuplicateStays(gids, k + 1);
        return Some(snapshots[k].gid);
      }
      seen := seen + {snapshots[k].gid};
    }
    assert gids[..|snapshots|] == gids;
    return None;
  }

  // ----- Upserting, snapshot by snapshot

  /** One turn of the upsert loop, seen from the tasks the loop started with. */
  lemma UpsertTurn(tasks: map<Gid, DownloadTask>, snapshots: seq<TaskSnapshot>, k: nat)
    requires k < |snapshots| && Distinct(Gids(snapshots))
    ensures var (now, g) := (UpsertAll(tasks, snapshots[..k]), snapshots[k].gid);
            && UpsertAll(tasks, snapshots[..k + 1]) == now[g := Upserted(now, snapshots[k])]
            && (g in now <==> g in tasks) && (g in now ==> now[g] == tasks[g])
            && g in UpsertAll(tasks, snapshots)
            && UpsertAll(tasks, snapshots)[g] == Upserted(tasks, snapshots[k]) == Upserted(now, snapshots[k])
  {
    var gids, g := Gids(snapshots), snapshots[k].gid;
    UpsertAllPointwise(tasks, snapshots);
    assert Gids(snapshots[..k]) == gids[..k];
    UpsertAllPointwise(tasks, snapshots[..k]);
    UpsertAllKeys(tasks, snapshots[..k]);
    assert snapshots[..k + 1][..k] == snapshots[..k];
    assert gids[k] == g && g !in Elems(gids[..k]);
  }

  lemma SameUpdate(a: map<Gid, DownloadTask>, b: map<Gid, DownloadTask>,
                   c: map<Gid, DownloadTask>, d: map<Gid, DownloadTask>, g: Gid)
    requires g in b && g in d && b[g] == d[g]
    requires (g in a <==> g in c) && (g in a ==> a[g] == c[g])
    ensures Updates(a, b, [g]) == Updates(c, d, [g])
  {
    UpdatesOne(a, b, g);
    UpdatesOne(c, d, g);
  }

  lemma TurnNoted(tasks: map<Gid, DownloadTask>, final: map<Gid, DownloadTask>, now: map<Gid, DownloadTask>,
                  next: map<Gid, DownloadTask>, gids: seq<Gid>, k: nat)
    requires k < |gids| && Elems(gids[..k + 1]) <= final.Keys
    requires gids[k] in final && gids[k] in next && final[gids[k]] == next[gids[k]]
    requires (gids[k] in tasks <==> gids[k] in now) && (gids[k] in tasks ==> tasks[gids[k]] == now[gids[k]])
    ensures Elems(gids[..k]) <= final.Keys
    ensures Updates(tasks, final, gids[..k + 1]) == Updates(tasks, final, gids[..k]) + Updates(now, next, [gids[k]])
    ensures Without(gids[..k + 1], tasks.Keys)
            == Without(gids[..k], tasks.Keys) + (if gids[k] in now then [] else [gids[k]])
  {
    assert gids[..k + 1] == gids[..k] + [gids[k]];
    ElemsConcat(gids[..k], [gids[k]]);
    UpdatesSnoc(tasks, final, gids[..k], gids[k]);
    SameUpdate(tasks, final, now, next, gids[k]);
    WithoutSnoc(gids[..k], gids[k], tasks.Keys);
  }

  /** What one upsert writes into the patch. */
  function Noted(patch: StorePatch, before: map<Gid, DownloadTask>, s: TaskSnapshot): StorePatch {
    patch.(inserted := patch.inserted + (if s.gid in before then [] else [s.gid]),
           updated := patch.updated + Updates(before, before[s.gid := Upserted(before, s)], [s.gid]))
  }

  /** The patch after the first `k` snapshots, told from the final tasks. */
  ghost function NotedFirst(patch: StorePatch, before: map<Gid, DownloadTask>, snapshots: seq<TaskSnapshot>,
                            k: nat): StorePatch
    requires k <= |snapshots|
  {
    var gids, final := Gids(snapshots), UpsertAll(before, snapshots);
    UpsertAllKeys(before, snapshots);
    assert Elems(gids[..k]) <= Elems(gids);
    patch.(inserted := Without(gids[..k], before.Keys), updated := Updates(before, final, gids[..k]))
  }

  /** What that turn adds to the patch. */
  lemma UpsertTurnNoted(tasks: map<Gid, DownloadTask>, snapshots: seq<TaskSnapshot>, k: nat, patch: StorePatch)
    requires k < |snapshots| && Distinct(Gids(snapshots))
    ensures Noted(NotedFirst(patch, tasks, snapshots, k), UpsertAll(tasks, snapshots[..k]), snapshots[k])
            == NotedFirst(patch, tasks, snapshots, k + 1)
  {
    var gids, final, g := Gids(snapshots), UpsertAll(tasks, snapshots), snapshots[k].gid;
    var now := UpsertAll(tasks, snapshots[..k]);
    UpsertTurn(tasks, snapshots, k);
    UpsertAllKeys(tasks, snapshots);
    assert Elems(gids[..k + 1]) <= Elems(gids);
    TurnNoted(tasks, final, now, now[g := Upserted(now, snapshots[k])], gids, k);
  }

  lemma UpsertTurnHistory(order: seq<Gid>, only: set<Gid>, gids: seq<Gid>, k: nat)
    requires k < |gids|
    ensures Without(Without(order, Elems(gids[..k])), {gids[k]}) == Without(order, Elems(gids[..k + 1]))
    ensures only - Elems(gids[..k]) - {gids[k]} == only - Elems(gids[..k + 1])
  {
    WithoutTwice(order, Elems(gids[..k]), {gids[k]});
    assert gids[..k + 1] == gids[..k] + [gids[k]];
    ElemsConcat(gids[..k], [gids[k]]);
  }

  lemma UpsertStart(before: map<Gid, DownloadTask>, snapshots: seq<TaskSnapshot>, patch: StorePatch)
    requires patch.inserted == [] && patch.updated == []
    ensures NotedFirst(patch, before, snapshots, 0) == patch
    ensures Elems(Gids(snapshots)[..0]) == {}
    ensures UpsertAll(before, snapshots[..0]) == before
  {
  }

  lemma UpsertEnd(before: map<Gid, DownloadTask>, snapshots: seq<TaskSnapshot>, patch: StorePatch)
    ensures Elems(Gids(snapshots)) <= UpsertAll(before, snapshots).Keys
    ensures NotedFirst(patch, before, snapshots, |snapshots|)
            == patch.(inserted := Without(Gids(snapshots), before.Keys),
                      updated := Updates(before, UpsertAll(before, snapshots), Gids(snapshots)))
    ensures snapshots[..|snapshots|] == snapshots && Gids(snapshots)[..|snapshots|] == Gids(snapshots)
  {
    UpsertAllKeys(before, snapshots);
    assert Gids(snapshots)[..|snapshots|] == Gids(snapshots);
  }

  // ----- Rebuilding the stopped order

  /** One turn of the rebuild loop. */
  lemma RebuildTurn(flat: seq<Gid>, k: nat, keys: set<Gid>)
    requires k < |flat|
    ensures Elems(flat[..k + 1]) == Elems(flat[..k]) + {flat[k]}
    ensures var (gone, gid) := (Elems(flat) - keys, flat[k]);
            Without(Dedup(flat[..k + 1]), gone)
            == if gid in Elems(flat[..k]) || gid !in keys then Without(Dedup(flat[..k]), gone)
               else Without(Dedup(flat[..k]), gone) + [gid]
  {
    assert flat[..k + 1] == flat[..k] + [flat[k]];
    DedupSnoc(flat[..k], flat[k]);
    WithoutSnoc(Dedup(flat[..k]), flat[k], Elems(flat) - keys);
    ElemsConcat(flat[..k], [flat[k]]);
    assert flat[k] in Elems(flat);
  }

  /** Collects each gid that has a task once, where it first occurs. */
  method FirstOccurrences(flat: seq<Gid>, tasks: map<Gid, DownloadTask>) returns (order: seq<Gid>)
    ensures order == Without(Dedup(flat), Elems(flat) - tasks.Keys)
  {
    var seen: set<Gid> := {};
    order := [];
    for k := 0 to |flat|
      invariant seen == Elems(flat[..k])
      invariant order == Without(Dedup(flat[..k]), Elems(flat) - tasks.Keys)
    {
      RebuildTurn(flat, k, tasks.Keys);
      if flat[k] !in seen {
        seen := seen + {flat[k]};
        if flat[k] in tasks {
          order := order + [flat[k]];
        }
      }
    }
    assert flat[..|flat|] == flat;
  }

  lemma NoHistory(order: seq<Gid>, dropped: set<Gid>)
    requires Elems(order) == {}
    ensures Without(order, dropped) == order
  {
    WithoutNothing(order, dropped);
  }

  // ----- Dropping tasks one by one

  lemma NameIndexDrop(tasks: map<Gid, DownloadTask>, gid: Gid, lower: string -> string)
    ensures NameIndex(tasks, lower) - {gid} == NameIndex(tasks - {gid}, lower)
  {
  }

  lemma DropTurn(before: map<Gid, DownloadTask>, dropped: set<Gid>, todo: set<Gid>, gid: Gid)
    requires todo <= dropped && gid in todo
    ensures dropped - (todo - {gid}) == (dropped - todo) + {gid}
    ensures var (removed, next) := (dropped - todo, dropped - (todo - {gid}));
            && (gid in before - removed <==> gid in before)
            && before - next == (if gid in before then before - removed - {gid} else before - removed)
            && before.Keys * next == before.Keys * removed + (if gid in before then {gid} else {})
  {
  }

  lemma GoneTurn(before: map<Gid, DownloadTask>, gone: set<Gid>, todo: set<Gid>, stopped: set<Gid>, gid: Gid)
    requires todo <= gone && gid in todo
    ensures var (removed, next) := ((gone - todo - stopped) * before.Keys,
                                    (gone - (todo - {gid}) - stopped) * before.Keys);
            && (gid in before - removed <==> gid in before)
            && next == (if gid !in stopped && gid in before then removed + {gid} else removed)
            && before - removed - {gid} == before - (removed + {gid})
  {
  }

  // ----- The stages the operations go through, as values

  function TasksUpserted(st: StoreState, snapshots: seq<TaskSnapshot>): StoreState {
    var tasks := UpsertAll(st.tasks, snapshots);
    st.(tasks := tasks,
        searchIndex := NameIndex(tasks, st.lower),
        historyOnly := st.historyOnly - Elems(Gids(snapshots)),
        historyOrder := Without(st.historyOrder, Elems(Gids(snapshots))))
  }

  /** What upserting puts into a patch: new gids and changed tasks. */
  function Noting(st: StoreState, snapshots: seq<TaskSnapshot>): (seq<Gid>, seq<TaskFieldPatch>) {
    UpsertAllKeys(st.tasks, snapshots);
    (Without(Gids(snapshots), st.tasks.Keys), Updates(st.tasks, UpsertAll(st.tasks, snapshots), Gids(snapshots)))
  }

  function Rebuilt(st: StoreState): StoreState {
    var flat := Flatten(st.stoppedPages);
    var stopped := Without(Dedup(flat), Elems(flat) - st.tasks.Keys);
    st.(stoppedOrder := stopped,
        historyOnly := st.historyOnly - Elems(stopped),
        historyOrder := Without(st.historyOrder, Elems(stopped)))
  }

  /** While every paged gid has a task and none is a history row, a rebuild only de-duplicates. */
  lemma RebuiltPlain(st: StoreState)
    requires Elems(Flatten(st.stoppedPages)) <= st.tasks.Keys
    requires Elems(Flatten(st.stoppedPages)) !! Elems(st.historyOrder)
    requires st.historyOnly == Elems(st.historyOrder)
    ensures Rebuilt(st) == st.(stoppedOrder := Dedup(Flatten(st.stoppedPages)))
  {
    var flat := Flatten(st.stoppedPages);
    WithoutNothing(Dedup(flat), Elems(flat) - st.tasks.Keys);
    WithoutNothing(st.historyOrder, Elems(Dedup(flat)));
    assert st.historyOnly - Elems(Dedup(flat)) == st.historyOnly;
  }

  function LiveSettled(st: StoreState, newActive: seq<Gid>, newWaiting: seq<Gid>, gone: set<Gid>,
                       noted: StorePatch): Outcome {
    var removed := (gone - Elems(st.stoppedOrder)) * st.tasks.Keys;
    var tasks := st.tasks - removed;
    Finish(st.(tasks := tasks,
               searchIndex := NameIndex(tasks, st.lower),
               activeOrder := newActive,
               waitingOrder := newWaiting),
           noted.(removed := removed)
           .Mark(ActiveList, st.activeOrder != newActive)
           .Mark(WaitingList, st.waitingOrder != newWaiting))
  }

  /** The stages of `reconcile_live` make up a reconciliation. */
  lemma StagesReconcile(st: StoreState, active: seq<TaskSnapshot>, waiting: seq<TaskSnapshot>)
    requires st.Valid() && Distinct(Gids(active + waiting))
    ensures var newLive := Elems(Gids(active)) + Elems(Gids(waiting));
            var upserted := TasksUpserted(st, active + waiting);
            var rebuilt := Rebuilt(upserted.(stoppedPages := Purge(st.stoppedPages, newLive)));
            var (inserted, updated) := Noting(st, active + waiting);
            var noted := NewPatch(st.session.generation, st.revision).(inserted := inserted, updated := updated)
                         .Mark(StoppedList, st.stoppedOrder != rebuilt.stoppedOrder);
            LiveSettled(rebuilt, Gids(active), Gids(waiting), st.Live() - newLive, noted)
            == Reconciled(st, active, waiting)
  {
    LiveGids(active, waiting);
    var newLive := Elems(Gids(active)) + Elems(Gids(waiting));
    var purged := TasksUpserted(st, active + waiting).(stoppedPages := Purge(st.stoppedPages, newLive));
    UpsertAllKeys(st.tasks, active + waiting);
    FlattenPurge(st.stoppedPages, newLive);
    RebuiltPlain(purged);
    assert (st.Live() - newLive - Elems(Rebuilt(purged).stoppedOrder)) * purged.tasks.Keys == st.Live() - newLive;
  }

  function PageListed(st: StoreState, offset: U64, total: Option<U64>, gids: seq<Gid>): StoreState {
    st.(activeOrder := Without(st.activeOrder, Elems(gids)),
        waitingOrder := Without(st.waitingOrder, Elems(gids)),
        stoppedPages := PagesWith(st.stoppedPages, offset, total, gids),
        stoppedTotal := if total.Some? then total else st.stoppedTotal)
  }

  /** The stages of `apply_stopped_page` make up an applied page. */
  lemma StagesPage(st: StoreState, offset: U64, total: Option<U64>, kept: seq<TaskSnapshot>)
    requires st.Valid() && Distinct(Gids(kept))
    ensures var listed := PageListed(TasksUpserted(st, kept), offset, total, Gids(kept));
            var rebuilt := Rebuilt(listed);
            var (inserted, updated) := Noting(st, kept);
            var noted := NewPatch(st.session.generation, st.revision).(inserted := inserted, updated := updated)
                         .Mark(ActiveList, st.activeOrder != rebuilt.activeOrder)
                         .Mark(WaitingList, st.waitingOrder != rebuilt.waitingOrder)
                         .Mark(StoppedList, st.stoppedOrder != rebuilt.stoppedOrder);
            Finish(rebuilt, noted) == PageApplied(st, offset, total, kept)
  {
    var listed := PageListed(TasksUpserted(st, kept), offset, total, Gids(kept));
    UpsertAllKeys(st.tasks, kept);
    PagesWithSorted(st.stoppedPages, offset, total, Gids(kept));
    assert Elems(Flatten(st.stoppedPages)) == Elems(st.stoppedOrder);
    RebuiltPlain(listed);
  }

  function TasksDropped(st: StoreState, dropped: set<Gid>): StoreState {
    var tasks := st.tasks - dropped;
    st.(tasks := tasks, searchIndex := NameIndex(tasks, st.lower), historyOnly := st.historyOnly - dropped)
  }

  function TasksForgotten(st: StoreState, dropped: set<Gid>): StoreState {
    var tasks := st.tasks - st.historyOnly * dropped;
    st.(tasks := tasks, searchIndex := NameIndex(tasks, st.lower), historyOnly := st.historyOnly - dropped)
  }

  function Unlisted(st: StoreState, dropped: set<Gid>): StoreState {
    st.(activeOrder := Without(st.activeOrder, dropped),
        waitingOrder := Without(st.waitingOrder, dropped),
        historyOrder := Without(st.historyOrder, dropped))
  }

  /** The stages of `remove_tasks` make up a removal. */
  lemma StagesRemove(st: StoreState, gids: seq<Gid>)
    requires st.Valid()
    ensures var dropped := Elems(gids);
            var unlisted := Unlisted(TasksDropped(st, dropped), dropped);
            var rebuilt := Rebuilt(unlisted.(stoppedPages := Purge(st.stoppedPages, dropped)));
            var noted := NewPatch(st.session.generation, st.revision).(removed := st.tasks.Keys * dropped)
                         .Mark(StoppedList, st.historyOrder != rebuilt.historyOrder)
                         .Mark(ActiveList, st.activeOrder != rebuilt.activeOrder)
                         .Mark(WaitingList, st.waitingOrder != rebuilt.waitingOrder)
                         .Mark(StoppedList, st.stoppedOrder != rebuilt.stoppedOrder);
            Finish(rebuilt, noted) == StoreSpec.RemoveTasks(st, st.session.generation, gids)
  {
    var dropped := Elems(gids);
    FlattenPurge(st.stoppedPages, dropped);
    assert Elems(Flatten(st.stoppedPages)) == Elems(st.stoppedOrder);
    RebuiltPlain(Unlisted(TasksDropped(st, dropped), dropped).(stoppedPages := Purge(st.stoppedPages, dropped)));
  }

  lemma StagesTarget(st: StoreState, s: TaskSnapshot)
    requires st.Valid()
    ensures var (tasks, g) := (st.tasks[s.gid := Upserted(st.tasks, s)], s.gid);
            Finish(st.(tasks := tasks,
                       searchIndex := NameIndex(tasks, st.lower),
                       historyOnly := st.historyOnly - {g},
                       historyOrder := Without(st.historyOrder, {g})),
                   Noted(NewPatch(st.session.generation, st.revision), st.tasks, s))
            == StoreSpec.ApplyTaskSnapshot(st, st.session.generation, g, Some(s))
  {
  }

  // ----- Seeding, row by row

  function RowsSeeded(st: StoreState, rows: seq<HistoryRecord>): StoreState {
    var tasks := SeedTasks(st.tasks, rows);
    st.(tasks := tasks,
        searchIndex := NameIndex(tasks, st.lower),
        historyOnly := Elems(RowGids(rows)),
        historyOrder := Dedup(RowGids(rows)))
  }

  function RowsNoted(st: StoreState, generation: U64, rows: seq<HistoryRecord>): StorePatch {
    NewPatch(generation, st.revision)
    .(inserted := Without(Dedup(RowGids(rows)), st.tasks.Keys),
      updated := Overwritten(Dedup(Reseen(st.tasks.Keys, RowGids(rows)))))
  }

  function RowSeeded(st: StoreState, r: HistoryRecord): StoreState {
    var tasks := st.tasks[r.gid := FromHistory(r)];
    st.(tasks := tasks,
        searchIndex := NameIndex(tasks, st.lower),
        historyOnly := st.historyOnly + {r.gid},
        historyOrder := if r.gid in st.historyOnly then st.historyOrder else st.historyOrder + [r.gid])
  }

  function RowNoted(st: StoreState, patch: StorePatch, r: HistoryRecord): StorePatch {
    if r.gid !in st.tasks then patch.(inserted := patch.inserted + [r.gid])
    else if r.gid in UpdatedGids(patch.updated) then patch
    else patch.(updated := patch.updated + [TaskFieldPatch(r.gid, ALL_FIELDS, 1)])
  }

  lemma RowsSnoc(tasks: map<Gid, DownloadTask>, rows: seq<HistoryRecord>, r: HistoryRecord)
    ensures RowGids(rows + [r]) == RowGids(rows) + [r.gid]
    ensures SeedTasks(tasks, rows + [r]) == SeedTasks(tasks, rows)[r.gid := FromHistory(r)]
  {
    assert (rows + [r])[..|rows|] == rows;
  }

  lemma SeedTurnState(st: StoreState, rows: seq<HistoryRecord>, r: HistoryRecord)
    ensures RowSeeded(RowsSeeded(st, rows), r) == RowsSeeded(st, rows + [r])
  {
    var gids := RowGids(rows);
    RowsSnoc(st.tasks, rows, r);
    ElemsConcat(gids, [r.gid]);
    DedupSnoc(gids, r.gid);
    assert r.gid in gids <==> r.gid in Elems(gids);
    assert Elems(gids + [r.gid]) == Elems(gids) + {r.gid};
    var (a, b) := (RowSeeded(RowsSeeded(st, rows), r), RowsSeeded(st, rows + [r]));
    assert a.tasks == b.tasks && a.historyOnly == b.historyOnly && a.historyOrder == b.historyOrder;
  }

  lemma SeedTurnInserted(tasks: map<Gid, DownloadTask>, rows: seq<HistoryRecord>, g: Gid)
    ensures var gids := RowGids(rows);
            Without(Dedup(gids + [g]), tasks.Keys)
            == if g in SeedTasks(tasks, rows) then Without(Dedup(gids), tasks.Keys)
               else Without(Dedup(gids), tasks.Keys) + [g]
  {
    var gids := RowGids(rows);
    DedupSnoc(gids, g);
    WithoutSnoc(Dedup(gids), g, tasks.Keys);
    assert g in gids <==> g in Elems(gids);
  }

  /** Only gids met again are ever rewritten. */
  lemma {:induction false} SeenAmong(known: set<Gid>, gids: seq<Gid>)
    ensures Elems(Reseen(known, gids)) <= Elems(gids)
  {
    if gids != [] {
      var init := gids[..|gids| - 1];
      SeenAmong(known, init);
      ElemsConcat(init, [gids[|init|]]);
      assert gids == init + [gids[|init|]];
      ElemsConcat(Reseen(known, init), [gids[|init|]]);
    }
  }

  lemma SeedTurnUpdated(known: set<Gid>, gids: seq<Gid>, g: Gid)
    ensures var updated := Overwritten(Dedup(Reseen(known, gids)));
            Overwritten(Dedup(Reseen(known, gids + [g])))
            == if (g in known || g in Elems(gids)) && g !in UpdatedGids(updated)
               then updated + [TaskFieldPatch(g, ALL_FIELDS, 1)] else updated
  {
    var seen := Dedup(Reseen(known, gids));
    assert (gids + [g])[..|gids|] == gids;
    assert g in gids <==> g in Elems(gids);
    DedupSnoc(Reseen(known, gids), g);
    assert UpdatedGids(Overwritten(seen)) == seen;
    assert g in seen <==> g in Elems(seen);
    assert g in Reseen(known, gids) <==> g in Elems(Reseen(known, gids));
    assert Overwritten(seen + [g]) == Overwritten(seen) + [TaskFieldPatch(g, ALL_FIELDS, 1)];
    SeenAmong(known, gids);
  }

  lemma SeedTurnPatch(st: StoreState, generation: U64, rows: seq<HistoryRecord>, r: HistoryRecord)
    ensures RowNoted(RowsSeeded(st, rows), RowsNoted(st, generation, rows), r) == RowsNoted(st, generation, rows + [r])
  {
    RowsSnoc(st.tasks, rows, r);
    SeedTurnInserted(st.tasks, rows, r.gid);
    SeedTurnUpdated(st.tasks.Keys, RowGids(rows), r.gid);
  }

  /** One turn of the seeding loop, for the rows accepted so far and the next one. */
  lemma SeedTurn(st: StoreState, generation: U64, rows: seq<HistoryRecord>, r: HistoryRecord)
    ensures RowSeeded(RowsSeeded(st, rows), r) == RowsSeeded(st, rows + [r])
    ensures RowNoted(RowsSeeded(st, rows), RowsNoted(st, generation, rows), r) == RowsNoted(st, generation, rows + [r])
  {
    SeedTurnState(st, rows, r);
    SeedTurnPatch(st, generation, rows, r);
  }

  // ----- The store

  class DownloadStore {
    var session: EngineSession
    var tasks: map<Gid, DownloadTask>
    var activeOrder: seq<Gid>
    var waitingOrder: seq<Gid>
    var stoppedOrder: seq<Gid>
    var historyOrder: seq<Gid>
    var historyOnly: set<Gid>
    var categoryByGid: map<Gid, string>
    var stoppedPages: seq<Pages.Page>
    var stoppedTotal: Option<U64>
    var searchIndex: map<Gid, string>
    var globalStat: GlobalStat
    var stale: bool
    var revision: U64
    const lower: string -> string

    function State(): StoreState
      reads this
    {
      StoreState(session, tasks, activeOrder, waitingOrder, stoppedOrder, historyOrder, historyOnly, categoryByGid,
                 stoppedPages, stoppedTotal, searchIndex, globalStat, stale, revision, lower)
    }

    ghost predicate Valid()
      reads this
    {
      State().Valid()
    }

    /** A call did what the specification says; a rejected call left every field alone. */
    ghost predicate Follows(before: StoreState, outcome: Outcome, r: Result<StorePatch, StoreError>)
      reads this
    {
      match outcome
      case Applied(after, patch) => State() == after && r == Success(patch)
      case Rejected(error) => State() == before && r == Failure(error)
    }

    constructor (session: EngineSession, lower: string -> string)
      ensures State() == NewStore(session, lower)
      ensures Valid()
    {
      this.session := session;
      this.lower := lower;
      tasks, searchIndex, categoryByGid := map[], map[], map[];
      activeOrder, waitingOrder, stoppedOrder, historyOrder := [], [], [], [];
      historyOnly := {};
      stoppedPages, stoppedTotal := [], None;
      globalStat := GlobalStat(0, 0, 0, 0, 0);
      stale, revision := false, 0;
    }

    method FinishPatch(patch: StorePatch) returns (finished: StorePatch)
      modifies this`revision
      ensures Applied(State(), finished) == Finish(old(State()), patch)
    {
      if !patch.IsEmpty() {
        revision := SatInc(revision);
      }
      finished := patch.(storeRevision := revision);
    }

    // ----- The steps shared by the operations

    /** Engine snapshots take a gid over from the durable history. */
    method DropHistoryOnly(gid: Gid)
      requires historyOnly == Elems(historyOrder)
      modifies this`historyOnly, this`historyOrder
      ensures historyOnly == old(historyOnly) - {gid}
      ensures historyOrder == Without(old(historyOrder), {gid})
      ensures historyOnly == Elems(historyOrder)
    {
      if gid in historyOnly {
        historyOnly := historyOnly - {gid};
        historyOrder := Without(historyOrder, {gid});
      } else {
        WithoutNothing(historyOrder, {gid});
      }
    }

    /** Puts a task into the map; the search index is rewritten only when the name may have changed. */
    method PutTask(gid: Gid, task: DownloadTask, renamed: bool)
      requires searchIndex == NameIndex(tasks, lower)
      requires !renamed ==> gid in tasks && tasks[gid].displayName == task.displayName
      modifies this`tasks, this`searchIndex
      ensures tasks == old(tasks)[gid := task]
      ensures searchIndex == NameIndex(tasks, lower)
    {
      if renamed {
        searchIndex := searchIndex[gid := lower(task.displayName)];
      }
      tasks := tasks[gid := task];
    }

    method Upsert(snapshot: TaskSnapshot, patch: StorePatch) returns (r: Result<StorePatch, StoreError>)
      requires searchIndex == NameIndex(tasks, lower)
      requires historyOnly == Elems(historyOrder)
      modifies this`tasks, this`searchIndex, this`historyOnly, this`historyOrder
      ensures var g := snapshot.gid;
              if g in old(tasks) && old(tasks)[g].gid != g then
                unchanged(this) && r == Failure(TaskUpdate(GidMismatch(old(tasks)[g].gid, g)))
              else
                && tasks == old(tasks)[g := Upserted(old(tasks), snapshot)]
                && searchIndex == NameIndex(tasks, lower)
                && historyOnly == old(historyOnly) - {g}
                && historyOrder == Without(old(historyOrder), {g})
                && historyOnly == Elems(historyOrder)
                && r == Success(Noted(patch, old(tasks), snapshot))
    {
      var gid := snapshot.gid;
      var noted := patch;
      ghost var before := tasks;
      UpdatesOne(before, before[gid := Upserted(before, snapshot)], gid);
      if gid in tasks {
        var task, result := ApplySnapshot(tasks[gid], snapshot);
        match result {
          case Failure(error) => return Failure(TaskUpdate(error));
          case Success(fields) =>
            if fields != {} {
              noted := noted.(updated := noted.updated + [TaskFieldPatch(gid, fields, task.revision)]);
            }
            assert DisplayName !in fields ==> !Differs(tasks[gid], task, DisplayName);
            PutTask(gid, task, DisplayName in fields);
        }
      } else {
        PutTask(gid, DownloadTask.FromSnapshot(snapshot), true);
        noted := noted.(inserted := noted.inserted + [gid]);
      }
      assert noted == Noted(patch, before, snapshot);
      DropHistoryOnly(gid);
      r := Success(noted);
    }

    /** The upsert loop shared by the live lists and the stopped pages. */
    method UpsertEach(snapshots: seq<TaskSnapshot>, patch: StorePatch) returns (r: Result<StorePatch, StoreError>)
      requires searchIndex == NameIndex(tasks, lower)
      requires historyOnly == Elems(historyOrder)
      requires forall g :: g in tasks ==> tasks[g].gid == g
      requires Distinct(Gids(snapshots))
      requires patch.inserted == [] && patch.updated == []
      modifies this`tasks, this`searchIndex, this`historyOnly, this`historyOrder
      ensures State() == TasksUpserted(old(State()), snapshots)
      ensures historyOnly == Elems(historyOrder)
      ensures r == Success(patch.(inserted := Noting(old(State()), snapshots).0,
                                  updated := Noting(old(State()), snapshots).1))
    {
      ghost var before, only, order := tasks, historyOnly, historyOrder;
      UpsertStart(before, snapshots, patch);
      WithoutNothing(historyOrder, {});
      var current := patch;
      for k := 0 to |snapshots|
        invariant tasks == UpsertAll(before, snapshots[..k])
        invariant searchIndex == NameIndex(tasks, lower)
        invariant historyOnly == only - Elems(Gids(snapshots)[..k]) == Elems(historyOrder)
        invariant historyOrder == Without(order, Elems(Gids(snapshots)[..k]))
        invariant current == NotedFirst(patch, before, snapshots, k)
      {
        UpsertTurn(before, snapshots, k);
        UpsertTurnNoted(before, snapshots, k, patch);
        UpsertTurnHistory(order, only, Gids(snapshots), k);
        var result := Upsert(snapshots[k], current);
        match result {
          case Failure(_) => assert false;
          case Success(next) => current := next;
        }
      }
      UpsertEnd(before, snapshots, patch);
      r := Success(current);
    }

    /** Engine stopped pages win over durable history for the same gid. */
    method PruneHistory()
      requires historyOnly == Elems(historyOrder)
      modifies this`historyOnly, this`historyOrder
      ensures historyOnly == old(historyOnly) - Elems(stoppedOrder)
      ensures historyOrder == Without(old(historyOrder), Elems(stoppedOrder))
    {
      if historyOnly != {} {
        ghost var only, order := historyOnly, historyOrder;
        for k := 0 to |stoppedOrder|
          invariant historyOnly == only - Elems(stoppedOrder[..k])
          invariant historyOrder == order
        {
          assert stoppedOrder[..k + 1] == stoppedOrder[..k] + [stoppedOrder[k]];
          ElemsConcat(stoppedOrder[..k], [stoppedOrder[k]]);
          historyOnly := historyOnly - {stoppedOrder[k]};
        }
        assert stoppedOrder[..|stoppedOrder|] == stoppedOrder;
        assert Elems(order) * (Elems(order) - historyOnly) == Elems(order) * Elems(stoppedOrder);
        WithoutSame(historyOrder, Elems(historyOrder) - historyOnly, Elems(stoppedOrder));
        historyOrder := Without(historyOrder, Elems(historyOrder) - historyOnly);
      } else {
        NoHistory(historyOrder, Elems(stoppedOrder));
      }
    }

    /** Takes the first occurrence of every paged gid that still has a task. */
    method RebuildStoppedOrder()
      requires historyOnly == Elems(historyOrder)
      modifies this`stoppedOrder, this`historyOnly, this`historyOrder
      ensures State() == Rebuilt(old(State()))
    {
      stoppedOrder := FirstOccurrences(Flatten(stoppedPages), tasks);
      PruneHistory();
    }

    /** Takes the given gids out of every stopped page. */
    method PurgePages(dropped: set<Gid>)
      modifies this`stoppedPages
      ensures State() == old(State()).(stoppedPages := Purge(old(stoppedPages), dropped))
    {
      ghost var before := stoppedPages;
      for k := 0 to |stoppedPages|
        invariant |stoppedPages| == |before|
        invariant forall i :: 0 <= i < |before| ==>
          stoppedPages[i] == if i < k then Pages.Page(before[i].offset, Without(before[i].gids, dropped)) else before[i]
      {
        stoppedPages := stoppedPages[k := stoppedPages[k].(gids := Without(stoppedPages[k].gids, dropped))];
      }
    }

    // ----- Live lists and stopped pages

    /** Drops the tasks of vanished live gids that no stopped page holds. */
    method DropGone(gone: set<Gid>, stopped: set<Gid>) returns (removed: set<Gid>)
      requires searchIndex == NameIndex(tasks, lower)
      modifies this`tasks, this`searchIndex
      ensures removed == (gone - stopped) * old(tasks).Keys
      ensures tasks == old(tasks) - removed
      ensures searchIndex == NameIndex(tasks, lower)
    {
      removed := {};
      var todo := gone;
      ghost var before := tasks;
      assert before - {} == before;
      while todo != {}
        invariant todo <= gone
        invariant removed == (gone - todo - stopped) * before.Keys
        invariant tasks == before - removed
        invariant searchIndex == NameIndex(tasks, lower)
        decreases todo
      {
        var gid :| gid in todo;
        GoneTurn(before, gone, todo, stopped, gid);
        if gid !in stopped && gid in tasks {
          NameIndexDrop(tasks, gid, lower);
          tasks := tasks - {gid};
          searchIndex := searchIndex - {gid};
          removed := removed + {gid};
        }
        todo := todo - {gid};
      }
    }

    /** Drops what vanished and takes over the two live orders. */
    method SettleLive(newActive: seq<Gid>, newWaiting: seq<Gid>, gone: set<Gid>, noted: StorePatch)
      returns (patch: StorePatch)
      requires searchIndex == NameIndex(tasks, lower)
      modifies this`tasks, this`searchIndex, this`activeOrder, this`waitingOrder, this`revision
      ensures Applied(State(), patch) == LiveSettled(old(State()), newActive, newWaiting, gone, noted)
    {
      var removed := DropGone(gone, Elems(stoppedOrder));
      patch := noted.(removed := removed);
      patch := patch.Mark(ActiveList, activeOrder != newActive);
      activeOrder := newActive;
      patch := patch.Mark(WaitingList, waitingOrder != newWaiting);
      waitingOrder := newWaiting;
      patch := FinishPatch(patch);
    }

    method ReconcileLive(generation: U64, active: seq<TaskSnapshot>, waiting: seq<TaskSnapshot>)
      returns (r: Result<StorePatch, StoreError>)
      requires Valid()
      modifies this
      ensures Valid()
      ensures Follows(old(State()), StoreSpec.ReconcileLive(old(State()), generation, active, waiting), r)
    {
      if generation != session.generation {
        return Failure(StaleGeneration(session.generation, generation));
      }
      var duplicate := ValidateUnique(active + waiting);
      if duplicate.Some? {
        return Failure(DuplicateGid(duplicate.value));
      }
      ghost var before := State();
      LiveGids(active, waiting);
      var newActive, newWaiting := Gids(active), Gids(waiting);
      var newLive := Elems(newActive) + Elems(newWaiting);
      var oldLive := Elems(activeOrder) + Elems(waitingOrder);
      var upserts := UpsertEach(active + waiting, NewPatch(generation, revision));
      var previousStopped := stoppedOrder;
      PurgePages(newLive);
      RebuildStoppedOrder();
      var patch := upserts.value.Mark(StoppedList, previousStopped != stoppedOrder);
      patch := SettleLive(newActive, newWaiting, oldLive - newLive, patch);
      StagesReconcile(before, active, waiting);
      ReconciledValid(before, active, waiting);
      r := Success(patch);
    }

    /** Takes paged gids out of the live lists. */
    method TakeFromLive(paged: set<Gid>, noted: StorePatch) returns (patch: StorePatch)
      modifies this`activeOrder, this`waitingOrder
      ensures State() == old(State()).(activeOrder := Without(old(activeOrder), paged),
                                       waitingOrder := Without(old(waitingOrder), paged))
      ensures patch == noted.Mark(ActiveList, old(activeOrder) != activeOrder)
                            .Mark(WaitingList, old(waitingOrder) != waitingOrder)
    {
      var previousActive, previousWaiting := activeOrder, waitingOrder;
      activeOrder := Without(activeOrder, paged);
      waitingOrder := Without(waitingOrder, paged);
      patch := noted
        .Mark(ActiveList, previousActive != activeOrder)
        .Mark(WaitingList, previousWaiting != waitingOrder);
    }

    /** Stores a page under its offset and drops the pages past a reported total. */
    method StorePage(offset: U64, total: Option<U64>, gids: seq<Gid>)
      modifies this`stoppedPages, this`stoppedTotal
      ensures State() == old(State()).(stoppedPages := PagesWith(old(stoppedPages), offset, total, gids),
                                       stoppedTotal := if total.Some? then total else old(stoppedTotal))
    {
      stoppedPages := Insert(stoppedPages, Pages.Page(offset, gids));
      if total.Some? {
        stoppedTotal := total;
        stoppedPages := Below(stoppedPages, total.value);
      }
    }

    /** Applies one stopped page; gids missing from it are not deletions. */
    method ApplyStoppedPage(generation: U64, offset: U64, total: Option<U64>, page: seq<TaskSnapshot>)
      returns (r: Result<StorePatch, StoreError>)
      requires Valid()
      modifies this
      ensures Valid()
      ensures Follows(old(State()), StoreSpec.ApplyStoppedPage(old(State()), generation, offset, total, page), r)
    {
      if generation != session.generation {
        return Failure(StaleGeneration(session.generation, generation));
      }
      var duplicate := ValidateUnique(page);
      if duplicate.Some? {
        return Failure(DuplicateGid(duplicate.value));
      }
      if total.Some? && offset > total.value {
        return Failure(InvalidStoppedPage(offset, total.value));
      }
      ghost var before := State();
      var kept := Kept(offset, total, page);
      KeptDistinct(offset, total, page);
      var pageGids := Gids(kept);
      var upserts := UpsertEach(kept, NewPatch(generation, revision));
      var previousStopped := stoppedOrder;
      var patch := TakeFromLive(Elems(pageGids), upserts.value);
      StorePage(offset, total, pageGids);
      RebuildStoppedOrder();
      patch := patch.Mark(StoppedList, previousStopped != stoppedOrder);
      patch := FinishPatch(patch);
      StagesPage(before, offset, total, kept);
      PageAppliedValid(before, offset, total, kept);
      r := Success(patch);
    }

    // ----- Session, statistics and staleness

    method BeginSession(next: EngineSession) returns (r: Result<StorePatch, StoreError>)
      requires Valid()
      modifies this
      ensures Valid()
      ensures Follows(old(State()), StoreSpec.BeginSession(old(State()), next), r)
    {
      if next.profileId != session.profileId {
        return Failure(WrongProfile(session.profileId, next.profileId));
      }
      var patch := NewPatch(next.generation, revision);
      if session != next {
        session := next;
        patch := patch.(sessionChanged := true);
      }
      if !stale {
        stale := true;
        patch := patch.(staleChanged := true);
      }
      patch := FinishPatch(patch);
      r := Success(patch);
    }

    method UpdateGlobalStat(generation: U64, stat: GlobalStat) returns (r: Result<StorePatch, StoreError>)
      requires Valid()
      modifies this
      ensures Valid()
      ensures Follows(old(State()), StoreSpec.UpdateGlobalStat(old(State()), generation, stat), r)
    {
      if generation != session.generation {
        return Failure(StaleGeneration(session.generation, generation));
      }
      var patch := NewPatch(generation, revision);
      if globalStat != stat {
        globalStat := stat;
        patch := patch.(globalStatChanged := true);
      }
      patch := FinishPatch(patch);
      r := Success(patch);
    }

    method SetStale(generation: U64, isStale: bool) returns (r: Result<StorePatch, StoreError>)
      requires Valid()
      modifies this
      ensures Valid()
      ensures Follows(old(State()), StoreSpec.SetStale(old(State()), generation, isStale), r)
    {
      if generation != session.generation {
        return Failure(StaleGeneration(session.generation, generation));
      }
      var patch := NewPatch(generation, revision);
      if stale != isStale {
        stale := isStale;
        patch := patch.(staleChanged := true);
      }
      patch := FinishPatch(patch);
      r := Success(patch);
    }

    // ----- Single tasks and removals

    method Unlist(dropped: set<Gid>)
      modifies this`activeOrder, this`waitingOrder, this`historyOrder
      ensures State() == Unlisted(old(State()), dropped)
    {
      activeOrder := Without(activeOrder, dropped);
      waitingOrder := Without(waitingOrder, dropped);
      historyOrder := Without(historyOrder, dropped);
    }

    /** Removes every given task and its history-only mark. */
    method DropTasks(dropped: set<Gid>) returns (removed: set<Gid>)
      requires searchIndex == NameIndex(tasks, lower)
      modifies this`tasks, this`searchIndex, this`historyOnly
      ensures removed == old(tasks).Keys * dropped
      ensures State() == TasksDropped(old(State()), dropped)
    {
      removed := {};
      var todo := dropped;
      ghost var before, only := tasks, historyOnly;
      assert before - {} == before;
      while todo != {}
        invariant todo <= dropped
        invariant removed == before.Keys * (dropped - todo)
        invariant tasks == before - (dropped - todo)
        invariant searchIndex == NameIndex(tasks, lower)
        invariant historyOnly == only - (dropped - todo)
        decreases todo
      {
        var gid :| gid in todo;
        DropTurn(before, dropped, todo, gid);
        if gid in tasks {
          NameIndexDrop(tasks, gid, lower);
          tasks := tasks - {gid};
          searchIndex := searchIndex - {gid};
          removed := removed + {gid};
        }
        historyOnly := historyOnly - {gid};
        todo := todo - {gid};
      }
    }

    method RemoveTasks(generation: U64, gids: seq<Gid>) returns (r: Result<StorePatch, StoreError>)
      requires Valid()
      modifies this
      ensures Valid()
      ensures Follows(old(State()), StoreSpec.RemoveTasks(old(State()), generation, gids), r)
    {
      if generation != session.generation {
        return Failure(StaleGeneration(session.generation, generation));
      }
      ghost var before := State();
      var dropped := Elems(gids);
      var removed := DropTasks(dropped);
      var patch := NewPatch(generation, revision).(removed := removed);
      var previousActive, previousWaiting := activeOrder, waitingOrder;
      var previousStopped, previousHistory := stoppedOrder, historyOrder;
      Unlist(dropped);
      PurgePages(dropped);
      RebuildStoppedOrder();
      patch := patch
        .Mark(StoppedList, previousHistory != historyOrder)
        .Mark(ActiveList, previousActive != activeOrder)
        .Mark(WaitingList, previousWaiting != waitingOrder)
        .Mark(StoppedList, previousStopped != stoppedOrder);
      patch := FinishPatch(patch);
      StagesRemove(before, gids);
      RemovedValid(before, gids);
      r := Success(patch);
    }

    /** A targeted refresh of one task, without guessing its queue position. */
    method ApplyTaskSnapshot(generation: U64, gid: Gid, snapshot: Option<TaskSnapshot>)
      returns (r: Result<StorePatch, StoreError>)
      requires Valid()
      modifies this
      ensures Valid()
      ensures Follows(old(State()), StoreSpec.ApplyTaskSnapshot(old(State()), generation, gid, snapshot), r)
    {
      if generation != session.generation {
        return Failure(StaleGeneration(session.generation, generation));
      }
      if snapshot.None? {
        r := RemoveTasks(generation, [gid]);
        return;
      }
      if snapshot.value.gid != gid {
        return Failure(TargetedGidMismatch(gid, snapshot.value.gid));
      }
      ghost var before := State();
      var result := Upsert(snapshot.value, NewPatch(generation, revision));
      match result {
        case Failure(_) => assert false;
        case Success(noted) =>
          var patch := FinishPatch(noted);
          StagesTarget(before, snapshot.value);
          TargetValid(before, gid, snapshot);
          r := Success(patch);
      }
    }

    method SetCustomOutputName(generation: U64, gid: Gid, name: string) returns (r: Result<StorePatch, StoreError>)
      requires Valid()
      modifies this
      ensures Valid()
      ensures Follows(old(State()), StoreSpec.SetCustomName(old(State()), generation, gid, name), r)
    {
      if generation != session.generation {
        return Failure(StaleGeneration(session.generation, generation));
      }
      if gid !in tasks {
        return Failure(TaskNotFound(gid));
      }
      ghost var before := State();
      var task, fields := Tasks.SetCustomOutputName(tasks[gid], name);
      UpdatesOne(before.tasks, before.tasks[gid := task], gid);
      assert DisplayName !in fields ==> !Differs(before.tasks[gid], task, DisplayName);
      PutTask(gid, task, fields != {});
      var patch := NewPatch(generation, revision);
      if fields != {} {
        patch := patch.(updated := [TaskFieldPatch(gid, fields, task.revision)]);
      }
      patch := FinishPatch(patch);
      r := Success(patch);
    }

    // ----- Durable history

    method ForgetTasks(dropped: set<Gid>) returns (removed: set<Gid>)
      requires searchIndex == NameIndex(tasks, lower) && historyOnly <= tasks.Keys
      modifies this`tasks, this`searchIndex, this`historyOnly
      ensures removed == old(historyOnly) * dropped
      ensures State() == TasksForgotten(old(State()), dropped)
    {
      removed := {};
      var todo := dropped;
      ghost var before, only := tasks, historyOnly;
      assert before - {} == before;
      while todo != {}
        invariant todo <= dropped
        invariant removed == only * (dropped - todo)
        invariant tasks == before - removed
        invariant searchIndex == NameIndex(tasks, lower)
        invariant historyOnly == only - (dropped - todo)
        decreases todo
      {
        var gid :| gid in todo;
        assert dropped - (todo - {gid}) == (dropped - todo) + {gid};
        assert before - removed - {gid} == before - (removed + {gid});
        NameIndexDrop(tasks, gid, lower);
        if gid in historyOnly {
          historyOnly := historyOnly - {gid};
          if gid in tasks {
            tasks := tasks - {gid};
            searchIndex := searchIndex - {gid};
            removed := removed + {gid};
          }
        }
        todo := todo - {gid};
      }
    }

    method RemoveHistoryOnly(generation: U64, gids: seq<Gid>) returns (r: Result<StorePatch, StoreError>)
      requires Valid()
      modifies this
      ensures Valid()
      ensures Follows(old(State()), StoreSpec.RemoveHistoryOnly(old(State()), generation, gids), r)
    {
      if generation != session.generation {
        return Failure(StaleGeneration(session.generation, generation));
      }
      ghost var before := State();
      var removed := ForgetTasks(Elems(gids));
      var patch := NewPatch(generation, revision).(removed := removed);
      var previousHistory := historyOrder;
      historyOrder := Without(historyOrder, Elems(gids));
      patch := patch.Mark(StoppedList, previousHistory != historyOrder);
      patch := FinishPatch(patch);
      ForgottenValid(before, gids);
      r := Success(patch);
    }

    method AddHistoryRow(gid: Gid)
      modifies this`historyOnly, this`historyOrder
      ensures historyOnly == old(historyOnly) + {gid}
      ensures historyOrder == if gid in old(historyOnly) then old(historyOrder) else old(historyOrder) + [gid]
    {
      if gid !in historyOnly {
        historyOnly := historyOnly + {gid};
        historyOrder := historyOrder + [gid];
      }
    }

    method NoteRow(gid: Gid, noted: StorePatch) returns (patch: StorePatch)
      ensures patch == if gid !in tasks then noted.(inserted := noted.inserted + [gid])
                       else if gid in UpdatedGids(noted.updated) then noted
                       else noted.(updated := noted.updated + [TaskFieldPatch(gid, ALL_FIELDS, 1)])
    {
      patch := noted;
      if gid !in tasks {
        patch := patch.(inserted := patch.inserted + [gid]);
      } else if gid !in UpdatedGids(patch.updated) {
        patch := patch.(updated := patch.updated + [TaskFieldPatch(gid, ALL_FIELDS, 1)]);
      }
    }

    /** One history row enters the store. */
    method SeedOne(record: HistoryRecord, noted: StorePatch) returns (patch: StorePatch)
      requires searchIndex == NameIndex(tasks, lower)
      modifies this`tasks, this`searchIndex, this`historyOnly, this`historyOrder
      ensures State() == RowSeeded(old(State()), record)
      ensures patch == RowNoted(old(State()), noted, record)
    {
      patch := NoteRow(record.gid, noted);
      AddHistoryRow(record.gid);
      PutTask(record.gid, FromHistory(record), true);
    }

    method SeedLocalHistory(generation: U64, records: seq<HistoryRecord>) returns (r: Result<StorePatch, StoreError>)
      requires Valid()
      modifies this
      ensures Valid()
      ensures Follows(old(State()), StoreSpec.SeedLocalHistory(old(State()), generation, records), r)
    {
      if generation != session.generation {
        return Failure(StaleGeneration(session.generation, generation));
      }
      ghost var before := State();
      var patch := NewPatch(generation, revision);
      var live := Elems(activeOrder) + Elems(waitingOrder);
      var engineStopped := Elems(stoppedOrder);
      var previousHistory := historyOrder;
      historyOrder, historyOnly := [], {};
      for k := 0 to |records|
        invariant State() == RowsSeeded(before, SeedRows(before, records[..k]))
        invariant patch == RowsNoted(before, generation, SeedRows(before, records[..k]))
      {
        var record := records[k];
        assert records[..k + 1][..k] == records[..k];
        if record.profileId != session.profileId || record.status !in {Complete, Error} {
          continue;
        }
        if record.gid in live || record.gid in engineStopped {
          if record.gid !in tasks {
            assert false;
          }
          continue;
        }
        SeedTurn(before, generation, SeedRows(before, records[..k]), record);
        patch := SeedOne(record, patch);
      }
      assert records[..|records|] == records;
      patch := patch.Mark(StoppedList, previousHistory != historyOrder);
      patch := FinishPatch(patch);
      SeededValid(before, records);
      r := Success(patch);
    }

    // ----- Reading the stopped pages

    method NextStoppedOffset() returns (expected: U64)
      ensures expected == NextOffset(stoppedPages, 0)
    {
      expected := 0;
      var k := 0;
      while k < |stoppedPages|
        invariant k <= |stoppedPages|
        invariant NextOffset(stoppedPages[k..], expected) == NextOffset(stoppedPages, 0)
      {
        var page := stoppedPages[k];
        assert stoppedPages[k..][0] == page && stoppedPages[k..][1..] == stoppedPages[k + 1..];
        if page.offset > expected {
          return;
        }
        expected := SatAdd(expected, |page.gids|);
        k := k + 1;
      }
    }

    method CanLoadMoreStopped() returns (more: bool)
      ensures more == CanLoadMore(State())
    {
      match stoppedTotal {
        case Some(total) =>
          var next := NextStoppedOffset();
          more := next < total;
        case None => more := stoppedPages == [];
      }
    }

    // ----- Category affiliations

    method SetCategoryAffiliations(affiliations: seq<(Gid, string)>)
      modifies this`categoryByGid
      ensures State() == SetCategories(old(State()), affiliations)
    {
      categoryByGid := map[];
      for k := 0 to |affiliations|
        invariant categoryByGid == Affiliations(affiliations[..k])
      {
        assert affiliations[..k + 1][..k] == affiliations[..k];
        if affiliations[k].1 != "" {
          categoryByGid := categoryByGid[affiliations[k].0 := affiliations[k].1];
        }
      }
      assert affiliations[..|affiliations|] == affiliations;
    }

    method SetTaskCategoryAffiliation(gid: Gid, category: Option<string>)
      modifies this`categoryByGid
      ensures State() == SetCategory(old(State()), gid, category)
    {
      if category.Some? && category.value != "" {
        categoryByGid := categoryByGid[gid := category.value];
      } else {
        categoryByGid := categoryByGid - {gid};
      }
    }
  }
}
