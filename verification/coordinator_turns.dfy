/** What each turn of the coordinator does: where it leads, what it logs, and what it leaves in the store. */
module CoordinatorTurns {
  import opened Prelude
  import opened Seqs
  import opened Tasks
  import opened StoreSpec
  import opened StoreProps
  import opened StoreDiff
  import opened StoreCalls
  import opened Paging
  import opened Refresh
  import opened RefreshResults
  import opened Backoff
  import opened Coordinator
  import opened CoordinatorProps
  import Pages
  import Text

  // ----- Failures

  /** A failed attempt: the store is stale and otherwise as it was, and the failure is the last event. */
  ghost predicate FailedFrom(c: Coordinator, r: Coordinator, error: SyncError) {
    && r.store == c.store.(stale := true, revision := r.store.revision)
    && r.generation == c.generation && r.log == c.log + [AttemptFailed(error)]
    && (r.phase == AwaitManual || r.phase == AwaitDelay)
    && (r.phase == AwaitManual ==> r.state == Failed(error))
    && (r.phase == AwaitDelay ==>
          error.retryable && r.state == ConnectionState.Disconnected && r.attempt == SatInc32(c.attempt))
  }

  lemma FailingShows(c: Coordinator, error: SyncError)
    requires c.store.session.generation == c.generation
    ensures var r := Failing(c, error);
            && r.store == c.store.(stale := true, revision := r.store.revision)
            && r.generation == c.generation && r.log == c.log + [AttemptFailed(error)] && r.attempt == c.attempt
            && r.state == (if error.retryable then ConnectionState.Disconnected else Failed(error))
  {
  }

  lemma FailAttemptShows(config: Config, c: Coordinator, error: SyncError, failureAttempt: U32)
    requires c.store.session.generation == c.generation
    ensures FailedFrom(c, FailAttempt(config, c, error, failureAttempt), error)
  {
    FailingShows(c, error);
  }

  /** The backoff and the log of a connection that was dropped, before the failure is counted. */
  function Rested(config: Config, c: Coordinator, duration: nat): Coordinator {
    if duration >= config.reconnect.resetAfter
    then c.(attempt := 0, log := c.log + [Reset(Lasted(duration))]) else c
  }

  /** A dropped connection: a reset if it lasted long enough, and then a failed attempt. */
  ghost predicate DroppedFrom(config: Config, c: Coordinator, r: Coordinator, store: StoreState, error: SyncError,
                              now: nat)
    requires c.phase.Online?
  {
    FailedFrom(Rested(config, c.(store := store), SatSub(now, c.phase.since)), r, error)
  }

  lemma DropShows(config: Config, c: Coordinator, store: StoreState, error: SyncError, now: nat)
    requires c.phase.Online? && store.session.generation == c.generation
    ensures DroppedFrom(config, c, Drop(config, c.(store := store), error, SatSub(now, c.phase.since)), store, error,
                        now)
  {
    var rested := Rested(config, c.(store := store), SatSub(now, c.phase.since));
    FailAttemptShows(config, rested, error, SatInc32(rested.attempt));
  }

  /** What an effect on the store leads to while online: the turn goes on, or the connection is dropped. */
  ghost predicate Leaves(config: Config, c: Coordinator, r: Coordinator, effect: Effect, now: nat)
    requires c.phase.Online?
  {
    match effect.error
    case None => r == c.(store := effect.store)
    case Some(error) => DroppedFrom(config, c, r, effect.store, error, now)
  }

  lemma AbsorbLeaves(config: Config, c: Coordinator, effect: Effect, now: nat)
    requires c.phase.Online? && effect.store.session.generation == c.generation
    ensures Leaves(config, c, Absorb(config, c, effect, SatSub(now, c.phase.since)), effect, now)
  {
    if effect.error.Some? {
      DropShows(config, c, effect.store, effect.error.value, now);
    }
  }

  lemma FinishedStore(st: StoreState, op: StoreOp)
    requires !op.Begin?
    ensures Finished(st, Perform(st, op)).store.session == st.session
  {
    if Perform(st, op).Applied? {
      PerformTouchesOnly(st, op);
    }
  }

  // ----- Polls

  /** The coordinator is online with a store of its own generation. */
  ghost predicate Serving(c: Coordinator) {
    c.phase.Online? && c.store.Valid() && c.store.session.generation == c.generation
  }

  /** A turn that acts on the store goes on with what the action leaves, or drops the connection with its error. */
  lemma EffectTurn(config: Config, c: Coordinator, input: Input, now: nat, freshId: nat, effect: Effect)
    requires Serving(c) && OnlineEffect(config, c.store, c.generation, input) == Some(effect)
    requires effect.store.session == c.store.session
    ensures Leaves(config, c, Step(config, c, Turn(input, now, freshId)), effect, now)
  {
    AbsorbLeaves(config, c, effect, now);
  }

  /** A global poll stores the statistics and nothing else; a failed one drops the connection. */
  lemma GlobalTickTurn(config: Config, c: Coordinator, stat: Result<GlobalStat, SyncError>, now: nat, freshId: nat)
    requires Serving(c)
    ensures var r := Step(config, c, Turn(GlobalTick(stat), now, freshId));
            match stat
            case Success(value) => r == c.(store := c.store.(globalStat := value, revision := r.store.revision))
            case Failure(error) => DroppedFrom(config, c, r, c.store, error, now)
  {
    match stat {
      case Success(value) =>
        FinishedStore(c.store, Stat(c.generation, value));
        EffectTurn(config, c, GlobalTick(stat), now, freshId,
                   Finished(c.store, UpdateGlobalStat(c.store, c.generation, value)));
      case Failure(error) => EffectTurn(config, c, GlobalTick(stat), now, freshId, Effect(c.store, Some(error)));
    }
  }

  /** A live poll takes over both lists and shows every fetched task; a list that repeats a gid drops the connection. */
  lemma LiveTickTurn(config: Config, c: Coordinator, live: LiveSnapshot, now: nat, freshId: nat)
    requires Serving(c)
    ensures var r := Step(config, c, Turn(LiveTick(Success(live)), now, freshId));
            if Distinct(Gids(live.active + live.waiting)) then
              && r == c.(store := r.store) && r.store.Valid()
              && r.store == ReconcileLive(c.store, c.generation, live.active, live.waiting).store
              && r.store.activeOrder == Gids(live.active) && r.store.waitingOrder == Gids(live.waiting)
              && r.store.tasks.Keys == c.store.tasks.Keys + r.store.Live() - (c.store.Live() - r.store.Live())
            else exists g :: FirstRepeat(Gids(live.active + live.waiting), g) &&
                             DroppedFrom(config, c, r, c.store, StoreFailure(DuplicateGid(g)), now)
  {
    var op := Reconcile(c.generation, live.active, live.waiting);
    AcceptedIff(c.store, op);
    FinishedStore(c.store, op);
    EffectTurn(config, c, LiveTick(Success(live)), now, freshId, Finished(c.store, Perform(c.store, op)));
    if Perform(c.store, op).Applied? {
      LiveTaken(c.store, live);
      ReconciledValid(c.store, live.active, live.waiting);
    } else {
      RefusedWith(c.store, op);
    }
  }

  /** Every task it fetched reflects its snapshot. */
  lemma LiveTickShows(config: Config, c: Coordinator, live: LiveSnapshot, now: nat, freshId: nat, k: nat,
                      r: Coordinator)
    requires Serving(c) && Distinct(Gids(live.active + live.waiting)) && k < |live.active + live.waiting|
    requires r == Step(config, c, Turn(LiveTick(Success(live)), now, freshId))
    ensures var s := (live.active + live.waiting)[k];
            s.gid in r.store.tasks && Reflects(r.store.tasks[s.gid], c.store.tasks, s)
  {
    LiveTickTurn(config, c, live, now, freshId);
    AcceptedIff(c.store, Reconcile(c.generation, live.active, live.waiting));
    ReconcileTakesSnapshots(c.store, c.generation, live.active, live.waiting, k);
  }

  /** A query that fails drops the connection with its error, and leaves the store's contents. */
  lemma FailedLiveTickTurn(config: Config, c: Coordinator, error: SyncError, now: nat, freshId: nat)
    requires Serving(c)
    ensures DroppedFrom(config, c, Step(config, c, Turn(LiveTick(Failure(error)), now, freshId)), c.store, error, now)
  {
    EffectTurn(config, c, LiveTick(Failure(error)), now, freshId, Effect(c.store, Some(error)));
  }

  lemma FailedTargetsTurn(config: Config, c: Coordinator, error: SyncError, now: nat, freshId: nat)
    requires Serving(c)
    ensures DroppedFrom(config, c, Step(config, c, Turn(RefreshTasks(Failure(error)), now, freshId)), c.store, error,
                        now)
  {
    EffectTurn(config, c, RefreshTasks(Failure(error)), now, freshId, Effect(c.store, Some(error)));
  }

  /** When the engine stops sending notifications, the connection counts as dropped; this may be retried. */
  lemma ClosedTurn(config: Config, c: Coordinator, now: nat, freshId: nat)
    requires Serving(c)
    ensures DroppedFrom(config, c, Step(config, c, Turn(NotificationsClosed, now, freshId)), c.store,
                        SyncError(SyncErrorKind.Disconnected, None, true), now)
  {
    DropShows(config, c, c.store, SyncError(SyncErrorKind.Disconnected, None, true), now);
  }

  lemma PollTurn(config: Config, c: Coordinator, pages: U64 -> PageAnswer, now: nat, freshId: nat, run: RefreshRun)
    requires Serving(c) && run.store.session == c.store.session
    requires OnlineEffect(config, c.store, c.generation, StoppedTick(pages)) == Some(FromRun(run))
    ensures Leaves(config, c, Step(config, c, Turn(StoppedTick(pages), now, freshId)), Effect(run.store, run.error),
                   now)
  {
    EffectTurn(config, c, StoppedTick(pages), now, freshId, FromRun(run));
  }

  /** The periodic poll of the stopped list refreshes the loaded pages. */
  lemma StoppedTickTurn(config: Config, c: Coordinator, pages: U64 -> PageAnswer, now: nat, freshId: nat)
    returns (run: RefreshRun)
    requires Serving(c)
    ensures run == RefreshLoaded(RefreshRun(c.store, {}, {}, None), c.generation, config.stoppedPageSize, pages)
    ensures Leaves(config, c, Step(config, c, Turn(StoppedTick(pages), now, freshId)), Effect(run.store, run.error),
                   now)
  {
    run := RefreshLoaded(RefreshRun(c.store, {}, {}, None), c.generation, config.stoppedPageSize, pages);
    LoadedKeepsStat(RefreshRun(c.store, {}, {}, None), c.generation, config.stoppedPageSize, pages);
    PollTurn(config, c, pages, now, freshId, run);
  }

  lemma RefreshKeepsSession(st: StoreState, generation: U64, pageSize: U32, answers: EngineAnswers,
                            history: HistoryAnswer)
    requires st.Valid()
    ensures RefreshAll(st, generation, pageSize, answers, history).store.session == st.session
  {
    RefreshStopsEarly(st, generation, pageSize, answers, history);
    if answers.stat.Success? && answers.live.Success? && generation == st.session.generation {
      PagesPart(st, generation, pageSize, answers);
      var counted := UpdateGlobalStat(st, generation, answers.stat.value).store;
      var paged := RefreshLoaded(RefreshRun(counted, {}, {}, None), generation, pageSize, answers.page).store;
      var op := Reconcile(generation, answers.live.value.active, answers.live.value.waiting);
      if Perform(paged, op).Applied? {
        PerformValid(paged, op);
        PerformTouchesOnly(paged, op);
        SeedIntoFacts(Perform(paged, op).store, generation, history);
      }
    }
  }

  /** A forced refresh while online is a full refresh. */
  lemma ForceRefreshTurn(config: Config, c: Coordinator, answers: EngineAnswers, history: HistoryAnswer, now: nat,
                         freshId: nat)
    requires Serving(c)
    ensures var run := RefreshAll(c.store, c.generation, config.stoppedPageSize, answers, history);
            Leaves(config, c, Step(config, c, Turn(ForceRefresh(answers, history), now, freshId)),
                   Effect(run.store, run.error), now)
  {
    var run := RefreshAll(c.store, c.generation, config.stoppedPageSize, answers, history);
    RefreshKeepsSession(c.store, c.generation, config.stoppedPageSize, answers, history);
    EffectTurn(config, c, ForceRefresh(answers, history), now, freshId, Effect(run.store, run.error));
  }

  // ----- Targeted refreshes

  /** The last answer about its gid. */
  predicate LastAnswer(tasks: seq<(Gid, Option<TaskSnapshot>)>, k: nat) {
    k < |tasks| && forall j | k < j < |tasks| :: tasks[j].0 != tasks[k].0
  }

  /** Every snapshot is one of the task that was asked for. */
  predicate Matching(tasks: seq<(Gid, Option<TaskSnapshot>)>) {
    forall k | 0 <= k < |tasks| :: tasks[k].1.Some? ==> tasks[k].1.value.gid == tasks[k].0
  }

  /** One task is gone or shows its snapshot, and the others are as they were. */
  ghost predicate OneShown(st: StoreState, after: StoreState, gid: Gid, snapshot: Option<TaskSnapshot>) {
    && (snapshot.None? ==> gid !in after.tasks)
    && (snapshot.Some? ==> gid in after.tasks && ShowsTransfer(after.tasks[gid], snapshot.value))
    && (forall g :: g != gid ==> (g in after.tasks <==> g in st.tasks))
    && (forall g :: g != gid && g in st.tasks ==> after.tasks[g] == st.tasks[g])
  }

  lemma FoundTarget(st: StoreState, snapshot: TaskSnapshot)
    requires st.Valid()
    ensures OneShown(st, ApplyTaskSnapshot(st, st.session.generation, snapshot.gid, Some(snapshot)).store, snapshot.gid,
                     Some(snapshot))
  {
    TargetTakesSnapshot(st, st.session.generation, snapshot.gid, snapshot);
  }

  lemma VanishedTarget(st: StoreState, gid: Gid)
    requires st.Valid()
    ensures OneShown(st, ApplyTaskSnapshot(st, st.session.generation, gid, None).store, gid, None)
  {
    RemoveLeavesNoTrace(st, st.session.generation, [gid]);
    assert Elems([gid]) == {gid};
  }

  lemma OneTarget(st: StoreState, gid: Gid, snapshot: Option<TaskSnapshot>)
    requires st.Valid() && (snapshot.Some? ==> snapshot.value.gid == gid)
    ensures var r := ApplyTaskSnapshot(st, st.session.generation, gid, snapshot);
            r.Applied? && r.store.Valid() && r.store.session == st.session && OneShown(st, r.store, gid, snapshot)
  {
    var op := Target(st.session.generation, gid, snapshot);
    AcceptedIff(st, op);
    PerformValid(st, op);
    PerformTouchesOnly(st, op);
    if snapshot.Some? {
      FoundTarget(st, snapshot.value);
    } else {
      VanishedTarget(st, gid);
    }
  }

  /** Every answered task is gone or shows its last snapshot; every other task is as it was. */
  ghost predicate TargetsShown(st: StoreState, after: StoreState, tasks: seq<(Gid, Option<TaskSnapshot>)>) {
    && (forall k: nat :: LastAnswer(tasks, k) ==>
          if tasks[k].1.None? then tasks[k].0 !in after.tasks
          else tasks[k].0 in after.tasks && ShowsTransfer(after.tasks[tasks[k].0], tasks[k].1.value))
    && (forall g :: (forall k :: 0 <= k < |tasks| ==> tasks[k].0 != g) ==>
          (g in after.tasks <==> g in st.tasks) && (g in st.tasks ==> after.tasks[g] == st.tasks[g]))
  }

  lemma TargetsCons(st: StoreState, one: StoreState, after: StoreState, tasks: seq<(Gid, Option<TaskSnapshot>)>)
    requires tasks != [] && TargetsShown(one, after, tasks[1..])
    requires OneShown(st, one, tasks[0].0, tasks[0].1)
    ensures TargetsShown(st, after, tasks)
  {
    var rest := tasks[1..];
    assert forall j :: 0 <= j < |rest| ==> rest[j] == tasks[j + 1];
    forall k: nat | LastAnswer(tasks, k)
      ensures if tasks[k].1.None? then tasks[k].0 !in after.tasks
              else tasks[k].0 in after.tasks && ShowsTransfer(after.tasks[tasks[k].0], tasks[k].1.value)
    {
      if k > 0 {
        assert LastAnswer(rest, k - 1);
      } else {
        assert forall j :: 0 <= j < |rest| ==> rest[j].0 != tasks[0].0;
      }
    }
    forall g | forall k :: 0 <= k < |tasks| ==> tasks[k].0 != g
      ensures (g in after.tasks <==> g in st.tasks) && (g in st.tasks ==> after.tasks[g] == st.tasks[g])
    {
      assert tasks[0].0 != g;
      assert forall j :: 0 <= j < |rest| ==> rest[j].0 != g;
    }
  }

  lemma {:induction false} TargetsShow(st: StoreState, tasks: seq<(Gid, Option<TaskSnapshot>)>)
    requires st.Valid() && Matching(tasks)
    ensures var e := ApplyTargets(st, st.session.generation, tasks);
            e.error.None? && e.store.Valid() && e.store.session == st.session && TargetsShown(st, e.store, tasks)
    decreases |tasks|
  {
    if tasks != [] {
      var one := ApplyTaskSnapshot(st, st.session.generation, tasks[0].0, tasks[0].1).store;
      OneTarget(st, tasks[0].0, tasks[0].1);
      TargetsShow(one, tasks[1..]);
      TargetsCons(st, one, ApplyTargets(one, st.session.generation, tasks[1..]).store, tasks);
    }
  }

  /** A targeted refresh of matching answers shows each of them and touches no other task. */
  lemma RefreshTasksTurn(config: Config, c: Coordinator, tasks: seq<(Gid, Option<TaskSnapshot>)>, now: nat,
                         freshId: nat)
    requires Serving(c) && Matching(tasks)
    ensures var r := Step(config, c, Turn(RefreshTasks(Success(tasks)), now, freshId));
            r == c.(store := r.store) && r.store.Valid() && TargetsShown(c.store, r.store, tasks)
  {
    TargetsShow(c.store, tasks);
    EffectTurn(config, c, RefreshTasks(Success(tasks)), now, freshId, ApplyTargets(c.store, c.generation, tasks));
  }

  /** The first answer of another task drops the connection, after the answers before it were applied. */
  lemma {:induction false} MismatchStops(st: StoreState, tasks: seq<(Gid, Option<TaskSnapshot>)>, k: nat)
    requires st.Valid() && k < |tasks| && Matching(tasks[..k])
    requires tasks[k].1.Some? && tasks[k].1.value.gid != tasks[k].0
    ensures var e := ApplyTargets(st, st.session.generation, tasks);
            && e.store == ApplyTargets(st, st.session.generation, tasks[..k]).store
            && e.store.session == st.session
            && e.error == Some(StoreFailure(TargetedGidMismatch(tasks[k].0, tasks[k].1.value.gid)))
    decreases k
  {
    if k > 0 {
      assert tasks[..k][0] == tasks[0];
      var one := ApplyTaskSnapshot(st, st.session.generation, tasks[0].0, tasks[0].1).store;
      OneTarget(st, tasks[0].0, tasks[0].1);
      var rest := tasks[..k][1..];
      assert tasks[1..][..k - 1] == rest;
      assert forall j :: 0 <= j < |rest| ==> rest[j] == tasks[..k][j + 1];
      MismatchStops(one, tasks[1..], k - 1);
    }
  }

  /** Any targeted refresh goes on with the store of its answers, or drops the connection with their error. */
  lemma TargetsTurn(config: Config, c: Coordinator, tasks: seq<(Gid, Option<TaskSnapshot>)>, now: nat, freshId: nat)
    requires Serving(c) && ApplyTargets(c.store, c.generation, tasks).store.session == c.store.session
    ensures var effect := ApplyTargets(c.store, c.generation, tasks);
            Leaves(config, c, Step(config, c, Turn(RefreshTasks(Success(tasks)), now, freshId)), effect, now)
  {
    EffectTurn(config, c, RefreshTasks(Success(tasks)), now, freshId, ApplyTargets(c.store, c.generation, tasks));
  }

  /** Up to an answer of another task, the answers before it are shown; the error names the two. */
  lemma MismatchShows(st: StoreState, tasks: seq<(Gid, Option<TaskSnapshot>)>, k: nat)
    requires st.Valid() && k < |tasks| && Matching(tasks[..k])
    requires tasks[k].1.Some? && tasks[k].1.value.gid != tasks[k].0
    ensures var e := ApplyTargets(st, st.session.generation, tasks);
            && TargetsShown(st, e.store, tasks[..k]) && e.store.session == st.session
            && e.error == Some(StoreFailure(TargetedGidMismatch(tasks[k].0, tasks[k].1.value.gid)))
  {
    MismatchStops(st, tasks, k);
    TargetsShow(st, tasks[..k]);
  }

  // ----- Requests of the user

  /** With every result loaded, a load-more request asks for nothing. */
  lemma LoadMoreIdle(config: Config, c: Coordinator, page: PageAnswer, history: HistoryAnswer, now: nat, freshId: nat)
    requires Serving(c) && !CanLoadMore(c.store)
    ensures Step(config, c, Turn(LoadMoreStopped(page, history), now, freshId)) == c
  {
  }

  lemma GoodPage(st: StoreState, page: PageAnswer, history: HistoryAnswer)
    requires st.Valid() && CanLoadMore(st) && Good(page)
    ensures var (g, p) := (st.session.generation, page.value);
            var paged := ApplyStoppedPage(st, g, p.offset, Some(p.total), p.tasks);
            && paged.Applied? && LoadPage(st, g, page, history) == Effect(SeedInto(paged.store, g, history), None)
            && SeedInto(paged.store, g, history).session == st.session
  {
    var op := StoreOp.Page(st.session.generation, page.value.offset, Some(page.value.total), page.value.tasks);
    AcceptedIff(st, op);
    PerformValid(st, op);
    FinishedStore(st, op);
    SeedIntoFacts(Perform(st, op).store, st.session.generation, history);
  }

  /** Otherwise a good answer is stored, and the history is seeded behind it. */
  lemma LoadMoreTurn(config: Config, c: Coordinator, page: PageAnswer, history: HistoryAnswer, now: nat, freshId: nat)
    requires Serving(c) && CanLoadMore(c.store) && Good(page)
    ensures var (r, p) := (Step(config, c, Turn(LoadMoreStopped(page, history), now, freshId)), page.value);
            var paged := ApplyStoppedPage(c.store, c.generation, p.offset, Some(p.total), p.tasks);
            paged.Applied? && r == c.(store := SeedInto(paged.store, c.generation, history))
  {
    GoodPage(c.store, page, history);
    EffectTurn(config, c, LoadMoreStopped(page, history), now, freshId,
               LoadPage(c.store, c.generation, page, history));
  }

  lemma BadPage(st: StoreState, generation: U64, page: PageAnswer, history: HistoryAnswer)
    requires CanLoadMore(st) && !Good(page) && st.session.generation == generation
    ensures var e := LoadPage(st, generation, page, history);
            e.store == st && e.error.Some? && Explains(page, e.error.value)
  {
    if page.Success? {
      var op := StoreOp.Page(generation, page.value.offset, Some(page.value.total), page.value.tasks);
      AcceptedIff(st, op);
      RefusedWith(st, op);
    }
  }

  /** Any other answer drops the connection with its error and leaves the store's contents. */
  lemma LoadMoreFails(config: Config, c: Coordinator, page: PageAnswer, history: HistoryAnswer, now: nat, freshId: nat)
    requires Serving(c) && CanLoadMore(c.store) && !Good(page)
    ensures var r := Step(config, c, Turn(LoadMoreStopped(page, history), now, freshId));
            exists error :: Explains(page, error) && DroppedFrom(config, c, r, c.store, error, now)
  {
    BadPage(c.store, c.generation, page, history);
    EffectTurn(config, c, LoadMoreStopped(page, history), now, freshId,
               LoadPage(c.store, c.generation, page, history));
  }

  /** Setting a category touches that affiliation only. */
  lemma SetTaskCategoryTurn(config: Config, c: Coordinator, gid: Gid, category: Option<string>, now: nat, freshId: nat)
    requires Serving(c)
    ensures var r := Step(config, c, Turn(SetTaskCategory(gid, category), now, freshId));
            && r == c.(store := c.store.(categoryByGid := r.store.categoryByGid))
            && (if category == None || category == Some("") then gid !in r.store.categoryByGid
                else gid in r.store.categoryByGid && category == Some(r.store.categoryByGid[gid]))
            && (forall g :: g != gid ==> (g in r.store.categoryByGid <==> g in c.store.categoryByGid))
            && (forall g :: g != gid && g in c.store.categoryByGid ==>
                  r.store.categoryByGid[g] == c.store.categoryByGid[g])
  {
  }

  /** A command for another session, or without a gateway, reaches neither the engine nor the store. */
  lemma RefusedCommandTurn(config: Config, c: Coordinator, session: EngineSession, gateway: bool, effect: CommandEffect,
                           now: nat, freshId: nat)
    requires Serving(c) && (session != c.store.session || !gateway)
    ensures Step(config, c, Turn(Execute(session, gateway, effect), now, freshId)) == c
    ensures Step(config, c, Turn(ApplySetting(session, gateway), now, freshId)) == c
  {
  }

  /** An applied setting is one engine call. */
  lemma SettingTurn(config: Config, c: Coordinator, now: nat, freshId: nat)
    requires Serving(c)
    ensures Step(config, c, Turn(ApplySetting(c.store.session, true), now, freshId))
            == c.(log := c.log + [Called(c.store.session, c.store.session, c.state)])
  {
  }

  /** The coordinator after an engine call. */
  function AfterCall(c: Coordinator): Coordinator {
    c.(log := c.log + [Called(c.store.session, c.store.session, c.state)])
  }

  /** A command that renamed a known task: the task has the name for good, and no other task moves but for removals. */
  lemma RenameTurn(config: Config, c: Coordinator, gid: Gid, name: string, now: nat, freshId: nat)
    requires Serving(c)
    ensures var r := Step(config, c,
                          Turn(Execute(c.store.session, true, CommandEffect(Some((gid, name)), [])), now, freshId));
            if gid in c.store.tasks then
              && r == AfterCall(c).(store := r.store) && r.store.Valid() && r.store.tasks.Keys == c.store.tasks.Keys
              && r.store.tasks[gid].displayName == name && r.store.tasks[gid].nameState == Custom
              && r.store.searchIndex[gid] == c.store.lower(name)
              && (forall g :: g in c.store.tasks && g != gid ==> r.store.tasks[g] == c.store.tasks[g])
            else DroppedFrom(config, AfterCall(c), r, c.store, StoreFailure(TaskNotFound(gid)), now)
  {
    var op := Rename(c.generation, gid, name);
    AcceptedIff(c.store, op);
    if gid in c.store.tasks {
      PerformValid(c.store, op);
      RenameShows(c.store, c.generation, gid, name);
    } else {
      RefusedWith(c.store, op);
      DropShows(config, AfterCall(c), c.store, StoreFailure(TaskNotFound(gid)), now);
    }
  }

  /** A command that removed tasks takes exactly their history rows out of the store. */
  lemma RemovalTurn(config: Config, c: Coordinator, removed: seq<Gid>, now: nat, freshId: nat)
    requires Serving(c)
    ensures var r := Step(config, c, Turn(Execute(c.store.session, true, CommandEffect(None, removed)), now, freshId));
            && r == AfterCall(c).(store := r.store) && r.store.Valid()
            && (forall g :: g in r.store.tasks <==> g in c.store.tasks && !(g in removed && g in c.store.historyOrder))
            && (forall g :: g in r.store.tasks ==> r.store.tasks[g] == c.store.tasks[g])
            && r.store.historyOrder == Without(c.store.historyOrder, Elems(removed))
            && r.store.activeOrder == c.store.activeOrder && r.store.waitingOrder == c.store.waitingOrder
            && r.store.stoppedOrder == c.store.stoppedOrder
  {
    if removed == [] {
      WithoutNothing(c.store.historyOrder, {});
      assert Elems(removed) == {};
    } else {
      var op := Forget(c.generation, removed);
      AcceptedIff(c.store, op);
      PerformValid(c.store, op);
      PerformTouchesOnly(c.store, op);
      ForgetDropsHistoryRows(c.store, c.generation, removed);
    }
  }

  /** A command acts on the store after it was called; an error of the store drops the connection. */
  lemma CommandTurn(config: Config, c: Coordinator, effect: CommandEffect, now: nat, freshId: nat)
    requires Serving(c)
    ensures var r := Step(config, c, Turn(Execute(c.store.session, true, effect), now, freshId));
            Leaves(config, AfterCall(c), r, ApplyCommand(c.store, c.generation, effect), now)
  {
    CommandKeeps(c.store, effect);
    AbsorbLeaves(config, AfterCall(c), ApplyCommand(c.store, c.generation, effect), now);
  }

  /** The name comes first and the removal second, and a name that is refused keeps the removal from happening. */
  lemma RenameThenRemoval(st: StoreState, generation: U64, rename: (Gid, string), removed: seq<Gid>)
    requires generation == st.session.generation
    ensures var named := ApplyCommand(st, generation, CommandEffect(Some(rename), []));
            && (named.error.None? <==> rename.0 in st.tasks)
            && ApplyCommand(st, generation, CommandEffect(Some(rename), removed))
               == if named.error.None? then ApplyCommand(named.store, generation, CommandEffect(None, removed))
                  else Effect(st, Some(StoreFailure(TaskNotFound(rename.0))))
  {
    AcceptedIff(st, Rename(generation, rename.0, rename.1));
  }

  /** Asking for a snapshot changes nothing; what is served is the state and the staleness at that moment. */
  lemma ServeSnapshotTurn(config: Config, c: Coordinator, now: nat, freshId: nat)
    requires c.phase != Ended
    ensures Step(config, c, Turn(ServeSnapshot, now, freshId)) == c.(log := c.log + [Served(c.state, c.store.stale)])
  {
  }

  /** Cancelling, or closing the control channel, ends the coordinator for good and leaves its store alone. */
  lemma EndTurn(config: Config, c: Coordinator, input: Input, now: nat, freshId: nat)
    requires input == Cancel || input == ChannelClosed
    ensures Step(config, c, Turn(input, now, freshId))
            == c.(phase := Ended, state := if c.phase.Online? then ConnectionState.Disconnected else c.state)
  {
  }

  lemma {:induction false} EndedIsFinal(config: Config, c: Coordinator, turns: seq<Turn>)
    requires c.phase == Ended
    ensures RunTurns(config, c, turns) == c
  {
    if turns != [] {
      EndedIsFinal(config, c, turns[..|turns| - 1]);
    }
  }

  // ----- Between connections

  /** What the coordinator attends to while it waits. */
  predicate Attends(phase: Phase, input: Input) {
    match input
    case Cancel | ChannelClosed | ServeSnapshot => phase != Ended
    case ForceRefresh(_, _) => phase.Online? || phase == AwaitManual || phase == AwaitDelay
    case ConnectDone(_) => phase == AwaitConnect
    case SnapshotDone(_, _) => phase == AwaitSnapshot
    case DelayElapsed => phase == AwaitDelay
    case SetActivity => false
    case _ => phase.Online?
  }

  /**
   Anything else leaves the coordinator as it is: requests that need a connection while there is none, a refresh
   that is forced while an attempt is under way, and everything after the end.
   */
  lemma UnattendedTurn(config: Config, c: Coordinator, input: Input, now: nat, freshId: nat)
    requires !Attends(c.phase, input)
    ensures Step(config, c, Turn(input, now, freshId)) == c
  {
  }

  /** The start of an attempt: a new session of the next generation over the same contents, which are now stale. */
  ghost predicate AttemptFrom(config: Config, c: Coordinator, r: Coordinator, freshId: nat) {
    && r.phase == AwaitConnect && r.generation == SatInc(c.generation) && r.attempt == c.attempt
    && r.state == Reconnecting(Max(c.attempt, 1)) && r.failureAttempt == SatInc32(c.attempt)
    && r.store == c.store.(session := EngineSession(config.profileId, freshId, r.generation), stale := true,
                           revision := r.store.revision)
    && r.log == c.log + [Attempted(r.generation)]
  }

  lemma NextAttemptFrom(config: Config, c: Coordinator, freshId: nat)
    requires c.store.session.profileId == config.profileId
    ensures AttemptFrom(config, c, NextAttempt(config, c, freshId), freshId)
  {
    AcceptedIff(c.store, Begin(EngineSession(config.profileId, freshId, SatInc(c.generation))));
  }

  /**
   The next attempt starts when the delay has elapsed, or at once when the user asks; only then is a failure
   forgotten.
   */
  lemma RetryTurn(config: Config, c: Coordinator, input: Input, now: nat, freshId: nat)
    requires c.store.session.profileId == config.profileId && (c.phase == AwaitManual || c.phase == AwaitDelay)
    requires input.ForceRefresh? || (input.DelayElapsed? && c.phase == AwaitDelay)
    ensures var r := Step(config, c, Turn(input, now, freshId));
            var from := if c.phase == AwaitManual then c.(attempt := 0, log := c.log + [Reset(ManualRetry)]) else c;
            AttemptFrom(config, from, r, freshId)
  {
    if c.phase == AwaitManual {
      NextAttemptFrom(config, c.(attempt := 0, log := c.log + [Reset(ManualRetry)]), freshId);
    } else {
      NextAttemptFrom(config, c, freshId);
    }
  }

  // ----- Connecting

  lemma ConnectTurnLeads(config: Config, c: Coordinator, refused: Option<SyncError>, now: nat, freshId: nat)
    requires c.phase == AwaitConnect && c.store.session.generation == c.generation
    ensures var r := Step(config, c, Turn(ConnectDone(refused), now, freshId));
            match refused
            case None => r == c.(phase := AwaitSnapshot, state := Authenticating)
            case Some(error) => FailedFrom(c, r, error)
  {
    if refused.Some? {
      FailAttemptShows(config, c, refused.value, c.failureAttempt);
    }
  }

  /** The first snapshot is one the store takes: a version, a page within its total, no gid twice. */
  ghost predicate Acceptable(initial: Initial) {
    && Text.Trim(initial.version) != ""
    && Distinct(Gids(initial.stopped.tasks)) && initial.stopped.offset <= initial.stopped.total
    && Distinct(Gids(initial.live.active + initial.live.waiting))
  }

  lemma InitialPagedIff(st: StoreState, initial: Initial)
    requires st.Valid()
    ensures var (g, e) := (st.session.generation, InitialPaged(st, st.session.generation, initial));
            var p := initial.stopped;
            e.error.None? <==> Distinct(Gids(p.tasks)) && p.offset <= p.total
  {
    var p := initial.stopped;
    var counted := UpdateGlobalStat(st, st.session.generation, initial.stat).store;
    AcceptedIff(counted, StoreOp.Page(st.session.generation, p.offset, Some(p.total), p.tasks));
  }

  lemma InitialAcceptedIff(st: StoreState, initial: Initial, history: HistoryAnswer)
    requires st.Valid()
    ensures ApplyInitial(st, st.session.generation, initial, history).error.None? <==> Acceptable(initial)
  {
    InitialPagedIff(st, initial);
    InitialPagedKeeps(st, initial);
    var paged := InitialPaged(st, st.session.generation, initial);
    AcceptedIff(paged.store, Reconcile(st.session.generation, initial.live.active, initial.live.waiting));
    if InitialLive(st, st.session.generation, initial).error.None? {
      InitialLiveKeeps(st, initial);
      FreshKeeps(InitialLive(st, st.session.generation, initial).store, history);
    }
  }

  /** A first snapshot that is acceptable brings the coordinator online with it; any other fails for good. */
  lemma SnapshotTurnLeads(config: Config, c: Coordinator, initial: Initial, history: HistoryAnswer, now: nat,
                          freshId: nat)
    requires c.phase == AwaitSnapshot && c.store.Valid() && c.store.session.generation == c.generation
    ensures var r := Step(config, c, Turn(SnapshotDone(Success(initial), history), now, freshId));
            if Acceptable(initial) then
              && r == c.(phase := Online(now), state := Connected, store := r.store)
              && r.store == ApplyInitial(c.store, c.generation, initial, history).store
              && r.store.Valid() && r.store.session == c.store.session && !r.store.stale
              && r.store.globalStat == initial.stat && r.store.stoppedTotal == Some(initial.stopped.total)
              && r.store.activeOrder == Gids(initial.live.active) && r.store.waitingOrder == Gids(initial.live.waiting)
            else
              && r.phase == AwaitManual && r.state.Failed? && r.store.stale && r.generation == c.generation
              && r.log == c.log + [AttemptFailed(r.state.error)] && !r.state.error.retryable
  {
    InitialAcceptedIff(c.store, initial, history);
    InitialKeeps(c.store, initial, history);
    if Acceptable(initial) {
      InitialTakesSnapshot(c.store, initial, history);
    } else {
      var effect := ApplyInitial(c.store, c.generation, initial, history);
      FailingShows(c.(store := effect.store), effect.error.value);
    }
  }

  /** The stages of an accepted first snapshot. */
  lemma InitialStages(st: StoreState, initial: Initial, history: HistoryAnswer)
    requires st.Valid() && Acceptable(initial)
    ensures var g := st.session.generation;
            var (paged, live) := (InitialPaged(st, g, initial).store, InitialLive(st, g, initial).store);
            && paged.Valid() && live.Valid() && live.session == st.session
            && ReconcileLive(paged, g, initial.live.active, initial.live.waiting).Applied?
            && live == ReconcileLive(paged, g, initial.live.active, initial.live.waiting).store
            && ApplyInitial(st, g, initial, history).store.tasks == SeedInto(live, g, history).tasks
            && ApplyInitial(st, g, initial, history).store.activeOrder == live.activeOrder
            && ApplyInitial(st, g, initial, history).store.waitingOrder == live.waitingOrder
            && ApplyInitial(st, g, initial, history).store.stoppedOrder == live.stoppedOrder
            && ApplyInitial(st, g, initial, history).store.session == live.session
  {
    var g := st.session.generation;
    InitialAcceptedIff(st, initial, history);
    InitialPagedKeeps(st, initial);
    InitialLiveKeeps(st, initial);
    SeedIntoFacts(InitialLive(st, g, initial).store, g, history);
  }

  /** Every task of the live lists of an accepted first snapshot shows what was fetched. */
  lemma InitialShowsLive(st: StoreState, initial: Initial, history: HistoryAnswer, k: nat)
    requires st.Valid() && Acceptable(initial) && k < |initial.live.active + initial.live.waiting|
    ensures var (after, s) := (ApplyInitial(st, st.session.generation, initial, history).store,
                               (initial.live.active + initial.live.waiting)[k]);
            s.gid in after.tasks && ShowsTransfer(after.tasks[s.gid], s)
  {
    var g := st.session.generation;
    InitialStages(st, initial, history);
    var (paged, live) := (InitialPaged(st, g, initial).store, InitialLive(st, g, initial).store);
    LiveShown(paged, g, initial.live.active, initial.live.waiting, k);
    SeedLeavesListed(live, g, history, (initial.live.active + initial.live.waiting)[k].gid);
  }

  lemma SameAdmissions(a: StoreState, b: StoreState, records: seq<HistoryRecord>, k: nat)
    requires a.session == b.session && a.activeOrder == b.activeOrder && a.waitingOrder == b.waitingOrder
    requires a.stoppedOrder == b.stoppedOrder && LastAdmitted(b, records, k)
    ensures LastAdmitted(a, records, k)
  {
    assert forall r: HistoryRecord :: Admits(a, r) <==> Admits(b, r);
  }

  /** Every record that is in none of its lists shows, the last one of its gid deciding. */
  lemma InitialShowsHistory(st: StoreState, initial: Initial, history: HistoryAnswer, k: nat)
    requires st.Valid() && Acceptable(initial) && history.records.Some?
    requires LastAdmitted(ApplyInitial(st, st.session.generation, initial, history).store, history.records.value, k)
    ensures var (after, r) := (ApplyInitial(st, st.session.generation, initial, history).store,
                               history.records.value[k]);
            r.gid in after.tasks && ShowsRecord(after.tasks[r.gid], r)
  {
    var g := st.session.generation;
    InitialStages(st, initial, history);
    var live := InitialLive(st, g, initial).store;
    SameAdmissions(live, ApplyInitial(st, g, initial, history).store, history.records.value, k);
    SeedShowsRecord(live, g, history, k);
  }

  /**
   The error of a first snapshot that is not acceptable: of its version, its page, or its live lists, in that
   order.
   */
  ghost predicate InitialRefused(initial: Initial, error: SyncError) {
    if Text.Trim(initial.version) == "" then error == SyncError(Protocol, None, false)
    else if !Good(Success(initial.stopped)) then Explains(Success(initial.stopped), error)
    else exists g :: FirstRepeat(Gids(initial.live.active + initial.live.waiting), g) &&
                     error == StoreFailure(DuplicateGid(g))
  }

  lemma PageRefused(st: StoreState, initial: Initial)
    requires st.Valid() && !Good(Success(initial.stopped))
    ensures var e := InitialPaged(st, st.session.generation, initial);
            e.error.Some? && Explains(Success(initial.stopped), e.error.value)
  {
    var p := initial.stopped;
    var op := StoreOp.Page(st.session.generation, p.offset, Some(p.total), p.tasks);
    var counted := UpdateGlobalStat(st, st.session.generation, initial.stat).store;
    AcceptedIff(counted, op);
    RefusedWith(counted, op);
  }

  lemma LiveRefused(st: StoreState, initial: Initial)
    requires st.Valid() && Good(Success(initial.stopped))
    requires !Distinct(Gids(initial.live.active + initial.live.waiting))
    ensures var e := InitialLive(st, st.session.generation, initial);
            e.error.Some? && exists g :: FirstRepeat(Gids(initial.live.active + initial.live.waiting), g) &&
                                         e.error.value == StoreFailure(DuplicateGid(g))
  {
    InitialPagedIff(st, initial);
    InitialPagedKeeps(st, initial);
    var paged := InitialPaged(st, st.session.generation, initial).store;
    var op := Reconcile(st.session.generation, initial.live.active, initial.live.waiting);
    AcceptedIff(paged, op);
    RefusedWith(paged, op);
  }

  lemma InitialRefusedWith(st: StoreState, initial: Initial, history: HistoryAnswer)
    requires st.Valid() && !Acceptable(initial)
    ensures var e := ApplyInitial(st, st.session.generation, initial, history);
            e.error.Some? && InitialRefused(initial, e.error.value)
  {
    if Text.Trim(initial.version) != "" {
      if !Good(Success(initial.stopped)) {
        PageRefused(st, initial);
      } else {
        LiveRefused(st, initial);
      }
    }
  }

  /** The pages after a first snapshot: its own, and the others below its total, in offset order. */
  ghost predicate PagesAfter(before: seq<Pages.Page>, p: StoppedPage, after: seq<Pages.Page>)
    requires p.offset <= p.total
  {
    && Pages.Sorted(after)
    && forall q :: q in after <==>
         q.offset < p.total && (q == Pages.Page(p.offset, Held(p.offset, Some(p.total), p.tasks)) ||
                                (q in before && q.offset != p.offset))
  }

  lemma InitialPages(st: StoreState, initial: Initial)
    requires st.Valid() && Acceptable(initial)
    ensures PagesAfter(st.stoppedPages, initial.stopped,
                       InitialPaged(st, st.session.generation, initial).store.stoppedPages)
  {
    var (g, p) := (st.session.generation, initial.stopped);
    var counted := UpdateGlobalStat(st, g, initial.stat).store;
    InitialPagedKeeps(st, initial);
    AcceptedIff(counted, StoreOp.Page(g, p.offset, Some(p.total), p.tasks));
    PageIsStored(counted, g, p.offset, Some(p.total), p.tasks);
  }

  /** The stopped list of an accepted first snapshot is that of its pages, but for what is live. */
  lemma InitialShowsStopped(st: StoreState, initial: Initial, history: HistoryAnswer)
    requires st.Valid() && Acceptable(initial)
    ensures var after := ApplyInitial(st, st.session.generation, initial, history).store;
            exists pages :: PagesAfter(st.stoppedPages, initial.stopped, pages) &&
                            after.stoppedOrder == Without(Dedup(Pages.Flatten(pages)), after.Live())
  {
    var (g, p) := (st.session.generation, initial.stopped);
    InitialStages(st, initial, history);
    var paged := InitialPaged(st, g, initial).store;
    InitialPages(st, initial);
    ReconcileIsExactDiff(paged, g, initial.live.active, initial.live.waiting);
  }

  lemma PageShown(st: StoreState, initial: Initial, k: nat)
    requires st.Valid() && Acceptable(initial)
    requires k < |initial.stopped.tasks| && initial.stopped.offset + k < initial.stopped.total
    ensures var (paged, s) := (InitialPaged(st, st.session.generation, initial).store, initial.stopped.tasks[k]);
            && s.gid in paged.tasks && ShowsTransfer(paged.tasks[s.gid], s)
            && s.gid in paged.stoppedOrder && s.gid !in paged.Live()
  {
    var (g, p) := (st.session.generation, initial.stopped);
    var counted := UpdateGlobalStat(st, g, initial.stat).store;
    AcceptedIff(counted, StoreOp.Page(g, p.offset, Some(p.total), p.tasks));
    PageShows(counted, g, p.offset, Some(p.total), p.tasks, k);
  }

  lemma ReconcileKeeps(st: StoreState, active: seq<TaskSnapshot>, waiting: seq<TaskSnapshot>, g: Gid)
    requires st.Valid() && ReconcileLive(st, st.session.generation, active, waiting).Applied?
    requires g in st.stoppedOrder && g !in Elems(Gids(active + waiting)) && g in st.tasks
    ensures var after := ReconcileLive(st, st.session.generation, active, waiting).store;
            g in after.tasks && after.tasks[g] == st.tasks[g] && g in after.stoppedOrder
  {
    assert g in Elems(st.stoppedOrder);
    LiveElems(active, waiting);
    OthersStay(st, Reconcile(st.session.generation, active, waiting), g);
    ReconcileIsExactDiff(st, st.session.generation, active, waiting);
    assert g in Elems(ReconcileLive(st, st.session.generation, active, waiting).store.stoppedOrder);
  }

  /** Every task of its page that is within the total and not live shows what was fetched. */
  lemma InitialShowsPage(st: StoreState, initial: Initial, history: HistoryAnswer, k: nat)
    requires st.Valid() && Acceptable(initial)
    requires k < |initial.stopped.tasks| && initial.stopped.offset + k < initial.stopped.total
    requires initial.stopped.tasks[k].gid !in Elems(Gids(initial.live.active + initial.live.waiting))
    ensures var (after, s) := (ApplyInitial(st, st.session.generation, initial, history).store,
                               initial.stopped.tasks[k]);
            s.gid in after.tasks && ShowsTransfer(after.tasks[s.gid], s)
  {
    var (g, gid) := (st.session.generation, initial.stopped.tasks[k].gid);
    InitialStages(st, initial, history);
    PageShown(st, initial, k);
    InitialPagedKeeps(st, initial);
    ReconcileKeeps(InitialPaged(st, g, initial).store, initial.live.active, initial.live.waiting, gid);
    SeedLeavesListed(InitialLive(st, g, initial).store, g, history, gid);
  }

  lemma FailedSnapshotTurn(config: Config, c: Coordinator, error: SyncError, history: HistoryAnswer, now: nat,
                           freshId: nat)
    requires c.phase == AwaitSnapshot && c.store.session.generation == c.generation
    ensures FailedFrom(c, Step(config, c, Turn(SnapshotDone(Failure(error), history), now, freshId)), error)
  {
    FailAttemptShows(config, c, error, c.failureAttempt);
  }

  /** The first attempt starts at generation 1 over an empty store with the history seeded into it. */
  lemma StartShows(config: Config, sessionId: nat, lower: string -> string, records: Option<seq<HistoryRecord>>)
    ensures var c := Start(config, sessionId, lower, records);
            && c.phase == AwaitConnect && c.state == Connecting && c.generation == 1 && c.attempt == 0
            && c.failureAttempt == 1 && c.log == [Attempted(1)]
            && c.store.session == EngineSession(config.profileId, sessionId, 1) && !c.store.stale
            && c.store.activeOrder == [] && c.store.waitingOrder == [] && c.store.stoppedPages == []
            && (records.Some? ==> forall k: nat :: LastAdmitted(NewStore(c.store.session, lower), records.value, k) ==>
                  var record := records.value[k];
                  record.gid in c.store.tasks && ShowsRecord(c.store.tasks[record.gid], record))
  {
    var st := NewStore(EngineSession(config.profileId, sessionId, 1), lower);
    SeedIntoFacts(st, 1, HistoryAnswer(records, None));
    if records.Some? {
      forall k: nat | LastAdmitted(st, records.value, k)
        ensures var record := records.value[k];
                var after := SeedInto(st, 1, HistoryAnswer(records, None));
                record.gid in after.tasks && ShowsRecord(after.tasks[record.gid], record)
      {
        SeedShowsRecord(st, 1, HistoryAnswer(records, None), k);
      }
    }
  }
}
