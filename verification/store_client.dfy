/** A client that only follows patches: what it rereads, and that it never falls out of step. */
module StoreClient {
  import opened Prelude
  import opened Seqs
  import opened Tasks
  import opened StoreSpec
  import opened StoreProps
  import opened StoreDiff

  /** What a client keeps of the store. */
  datatype Copy = Copy(
    tasks: map<Gid, DownloadTask>,
    activeOrder: seq<Gid>,
    waitingOrder: seq<Gid>,
    stoppedOrder: seq<Gid>,
    globalStat: GlobalStat,
    stale: bool,
    session: EngineSession,
    revision: U64)

  function CopyOf(st: StoreState): Copy {
    Copy(st.tasks, st.activeOrder, st.waitingOrder, st.stoppedOrder, st.globalStat, st.stale, st.session, st.revision)
  }

  /** The tasks a patch tells the client to read again. */
  function Reread(p: StorePatch): set<Gid> {
    Elems(p.inserted) + Elems(UpdatedGids(p.updated))
  }

  function FollowTasks(tasks: map<Gid, DownloadTask>, p: StorePatch,
                       now: map<Gid, DownloadTask>): map<Gid, DownloadTask> {
    (map g | g in tasks.Keys - p.removed - Reread(p) :: tasks[g]) + (map g | g in Reread(p) && g in now :: now[g])
  }

  /** The client reads from the store only what the patch mentions. */
  function Follow(copy: Copy, p: StorePatch, now: StoreState): Copy {
    Copy(
      FollowTasks(copy.tasks, p, now.tasks),
      if ActiveList in p.orderChanges then now.activeOrder else copy.activeOrder,
      if WaitingList in p.orderChanges then now.waitingOrder else copy.waitingOrder,
      if StoppedList in p.orderChanges then now.stoppedOrder else copy.stoppedOrder,
      if p.globalStatChanged then now.globalStat else copy.globalStat,
      if p.staleChanged then now.stale else copy.stale,
      if p.sessionChanged then now.session else copy.session,
      p.storeRevision)
  }

  /** A client that follows every accepted patch of a run; a rejected operation sends none. */
  function FollowRun(st: StoreState, ops: seq<StoreOp>): Copy {
    if ops == [] then CopyOf(st)
    else
      var before := FollowRun(st, ops[..|ops| - 1]);
      match Perform(Run(st, ops[..|ops| - 1]), ops[|ops| - 1])
      case Applied(after, p) => Follow(before, p, after)
      case Rejected(_) => before
  }

  /** A patch mentions every task that moved. */
  ghost predicate MentionsAll(before: map<Gid, DownloadTask>, after: map<Gid, DownloadTask>, p: StorePatch) {
    && Elems(p.inserted) == after.Keys - before.Keys && p.removed == before.Keys - after.Keys
    && Elems(UpdatedGids(p.updated)) <= after.Keys
    && forall g :: g in before && g in after && g !in Elems(UpdatedGids(p.updated)) ==> after[g] == before[g]
  }

  lemma FollowTasksExact(before: map<Gid, DownloadTask>, after: map<Gid, DownloadTask>, p: StorePatch)
    requires MentionsAll(before, after, p)
    ensures FollowTasks(before, p, after) == after
  {
    var r := FollowTasks(before, p, after);
    assert r.Keys == after.Keys;
    forall g | g in after ensures r[g] == after[g] {
    }
  }

  lemma SeedMentionsAll(st: StoreState, records: seq<HistoryRecord>)
    ensures var (after, p) := (SeedLocalHistory(st, st.session.generation, records).store,
                               SeedLocalHistory(st, st.session.generation, records).patch);
            MentionsAll(st.tasks, after.tasks, p)
  {
    var generation, gids := st.session.generation, RowGids(SeedRows(st, records));
    var (after, p) := (SeedLocalHistory(st, generation, records).store,
                       SeedLocalHistory(st, generation, records).patch);
    SeedReports(st, generation, records);
    forall g | g in st.tasks && g in after.tasks && g !in Elems(UpdatedGids(p.updated))
      ensures after.tasks[g] == st.tasks[g]
    {
      SeedTouchesRowsOnly(st, generation, records, g);
      assert g !in UpdatedGids(p.updated);
      assert g in gids ==> Again(st.tasks.Keys, gids, g);
    }
    forall g | g in Elems(UpdatedGids(p.updated)) ensures g in after.tasks {
      assert g in UpdatedGids(p.updated);
      SeedTouchesRowsOnly(st, generation, records, g);
    }
  }

  lemma MovedAreMentioned(st: StoreState, op: StoreOp)
    requires st.Valid() && Perform(st, op).Applied?
    ensures MentionsAll(st.tasks, Perform(st, op).store.tasks, Perform(st, op).patch)
  {
    if op.Seed? {
      SeedMentionsAll(st, op.records);
    } else {
      PerformTellsTasks(st, op);
    }
  }

  /** One patch brings an up-to-date copy up to date. */
  lemma FollowStep(st: StoreState, op: StoreOp)
    requires st.Valid() && Perform(st, op).Applied?
    ensures Follow(CopyOf(st), Perform(st, op).patch, Perform(st, op).store) == CopyOf(Perform(st, op).store)
  {
    var (after, p) := (Perform(st, op).store, Perform(st, op).patch);
    MovedAreMentioned(st, op);
    FollowTasksExact(st.tasks, after.tasks, p);
    PerformTellsRest(st, op);
  }

  /** Over every run, a client that reads only what the patches mention holds exactly the store's contents. */
  lemma {:induction false} FollowingStaysInStep(st: StoreState, ops: seq<StoreOp>)
    requires st.Valid()
    ensures Run(st, ops).Valid() && FollowRun(st, ops) == CopyOf(Run(st, ops))
  {
    if ops != [] {
      var init, op := ops[..|ops| - 1], ops[|ops| - 1];
      FollowingStaysInStep(st, init);
      var before := Run(st, init);
      if Perform(before, op).Applied? {
        PerformValid(before, op);
        FollowStep(before, op);
      }
    }
  }

  /** The gids alone: insertions and removals of all patches add up to the tasks of the store. */
  function ToldGids(st: StoreState, ops: seq<StoreOp>): set<Gid> {
    if ops == [] then st.tasks.Keys
    else
      var before := ToldGids(st, ops[..|ops| - 1]);
      match Perform(Run(st, ops[..|ops| - 1]), ops[|ops| - 1])
      case Applied(_, p) => before + Elems(p.inserted) - p.removed
      case Rejected(_) => before
  }

  lemma {:induction false} PatchesAddUp(st: StoreState, ops: seq<StoreOp>)
    requires st.Valid()
    ensures Run(st, ops).Valid() && ToldGids(st, ops) == Run(st, ops).tasks.Keys
  {
    if ops != [] {
      var init, op := ops[..|ops| - 1], ops[|ops| - 1];
      PatchesAddUp(st, init);
      var before := Run(st, init);
      if Perform(before, op).Applied? {
        PerformValid(before, op);
        MovedAreMentioned(before, op);
      }
    }
  }
}
