/** What every run of the coordinator keeps. */
module CoordinatorProps {
  import opened Prelude
  import opened Seqs
  import opened Tasks
  import opened StoreSpec
  import opened StoreProps
  import opened StoreDiff
  import opened Paging
  import opened Refresh
  import opened Backoff
  import opened Coordinator

  // ----- Store errors a run can meet

  /** Not one of the errors that a mismatched session would cause. */
  predicate Benign(error: SyncError) {
    error.cause.Some? ==> !error.cause.value.StaleGeneration? && !error.cause.value.WrongProfile?
  }

  /** Engine errors carry no store error. */
  ghost predicate EngineMade(error: SyncError) {
    error.cause.None?
  }

  ghost predicate PagesMade(page: U64 -> PageAnswer) {
    forall o: U64 :: page(o).Failure? ==> EngineMade(page(o).error)
  }

  ghost predicate TurnOk(turn: Turn) {
    match turn.input
    case ForceRefresh(answers, _) =>
      (answers.stat.Failure? ==> EngineMade(answers.stat.error)) &&
      (answers.live.Failure? ==> EngineMade(answers.live.error)) && PagesMade(answers.page)
    case LoadMoreStopped(page, _) => page.Failure? ==> EngineMade(page.error)
    case ConnectDone(refused) => refused.Some? ==> EngineMade(refused.value)
    case SnapshotDone(initial, _) => initial.Failure? ==> EngineMade(initial.error)
    case RefreshTasks(tasks) => tasks.Failure? ==> EngineMade(tasks.error)
    case GlobalTick(stat) => stat.Failure? ==> EngineMade(stat.error)
    case LiveTick(live) => live.Failure? ==> EngineMade(live.error)
    case StoppedTick(pages) => PagesMade(pages)
    case _ => true
  }

  // ----- Store steps keep the session, the staleness and the invariant

  /** What every store step of the coordinator guarantees. */
  ghost predicate Keeps(st: StoreState, e: Effect) {
    e.store.Valid() && e.store.session == st.session && e.store.stale == st.stale &&
    (e.error.Some? ==> Benign(e.error.value))
  }

  lemma OpKeeps(st: StoreState, op: StoreOp)
    requires st.Valid() && !op.Begin? && !op.Stale? && op.generation == st.session.generation
    ensures Keeps(st, Finished(st, Perform(st, op)))
  {
    if Perform(st, op).Applied? {
      PerformValid(st, op);
    }
  }

  lemma {:induction false} TargetsKeep(st: StoreState, tasks: seq<(Gid, Option<TaskSnapshot>)>)
    requires st.Valid()
    ensures Keeps(st, ApplyTargets(st, st.session.generation, tasks))
    decreases |tasks|
  {
    if tasks != [] {
      OpKeeps(st, Target(st.session.generation, tasks[0].0, tasks[0].1));
      var one := Finished(st, ApplyTaskSnapshot(st, st.session.generation, tasks[0].0, tasks[0].1));
      if one.error.None? {
        TargetsKeep(one.store, tasks[1..]);
      }
    }
  }

  lemma LoadPageKeeps(st: StoreState, answer: PageAnswer, history: HistoryAnswer)
    requires st.Valid() && (answer.Failure? ==> EngineMade(answer.error))
    ensures Keeps(st, LoadPage(st, st.session.generation, answer, history))
  {
    if CanLoadMore(st) && answer.Success? {
      var p := answer.value;
      OpKeeps(st, StoreOp.Page(st.session.generation, p.offset, Some(p.total), p.tasks));
      var paged := Finished(st, ApplyStoppedPage(st, st.session.generation, p.offset, Some(p.total), p.tasks));
      SeedIntoFacts(paged.store, st.session.generation, history);
    }
  }

  lemma CommandKeeps(st: StoreState, effect: CommandEffect)
    requires st.Valid()
    ensures Keeps(st, ApplyCommand(st, st.session.generation, effect))
  {
    var g := st.session.generation;
    if effect.renamed.Some? {
      OpKeeps(st, Rename(g, effect.renamed.value.0, effect.renamed.value.1));
      var renamed := Finished(st, SetCustomName(st, g, effect.renamed.value.0, effect.renamed.value.1));
      OpKeeps(renamed.store, Forget(g, effect.removed));
    } else {
      OpKeeps(st, Forget(g, effect.removed));
    }
  }

  lemma {:induction false} PagesBenign(st: StoreState, run: RefreshRun, pageSize: nat, through: nat, offset: U64,
                                       page: U64 -> PageAnswer)
    requires pageSize >= 1 && through <= U64_MAX && PagedFrom(st, run) && PagesMade(page)
    requires run.error.None?
    ensures var r := RefreshPages(run, st.session.generation, pageSize, through, offset, page);
            r.error.Some? ==> Benign(r.error.value)
    decreases if offset < through then through - offset else 0
  {
    var next := AddPage(run, st.session.generation, page(offset));
    PageStep(st, run, st.session.generation, page(offset));
    var offset' := SatAdd(offset, pageSize);
    if next.error.None? && offset' < through && offset' < page(offset).value.total {
      PagesBenign(st, next, pageSize, through, offset', page);
    }
  }

  lemma LoadedKeeps(st: StoreState, pageSize: U32, page: U64 -> PageAnswer)
    requires st.Valid() && PagesMade(page)
    ensures Keeps(st, FromRun(RefreshLoaded(RefreshRun(st, {}, {}, None), st.session.generation, pageSize, page)))
  {
    var size := Max(pageSize, 1);
    var through := Max(Pages.NextOffset(st.stoppedPages, 0), size);
    StartPagedFrom(st);
    PagesKeepFrom(st, RefreshRun(st, {}, {}, None), st.session.generation, size, through, 0, page);
    PagesBenign(st, RefreshRun(st, {}, {}, None), size, through, 0, page);
  }

  lemma RefreshKeeps(st: StoreState, pageSize: U32, answers: EngineAnswers, history: HistoryAnswer)
    requires st.Valid() && PagesMade(answers.page)
    requires (answers.stat.Failure? ==> EngineMade(answers.stat.error)) &&
             (answers.live.Failure? ==> EngineMade(answers.live.error))
    ensures Keeps(st, FromRun(RefreshAll(st, st.session.generation, pageSize, answers, history)))
  {
    if answers.stat.Success? && answers.live.Success? {
      var g := st.session.generation;
      OpKeeps(st, Stat(g, answers.stat.value));
      var counted := UpdateGlobalStat(st, g, answers.stat.value).store;
      LoadedKeeps(counted, pageSize, answers.page);
      var paged := RefreshLoaded(RefreshRun(counted, {}, {}, None), g, pageSize, answers.page);
      if paged.error.None? {
        var (a, w) := (answers.live.value.active, answers.live.value.waiting);
        OpKeeps(paged.store, Reconcile(g, a, w));
        SeedIntoFacts(Finished(paged.store, ReconcileLive(paged.store, g, a, w)).store, g, history);
      }
    }
  }

  lemma OnlineKeeps(config: Config, st: StoreState, turn: Turn)
    requires st.Valid() && TurnOk(turn)
    ensures var e := OnlineEffect(config, st, st.session.generation, turn.input);
            e.Some? ==> Keeps(st, e.value)
  {
    var g := st.session.generation;
    match turn.input {
      case ForceRefresh(answers, history) => RefreshKeeps(st, config.stoppedPageSize, answers, history);
      case LoadMoreStopped(page, history) => LoadPageKeeps(st, page, history);
      case RefreshTasks(Success(tasks)) => TargetsKeep(st, tasks);
      case GlobalTick(Success(stat)) => OpKeeps(st, Stat(g, stat));
      case LiveTick(Success(live)) => OpKeeps(st, Reconcile(g, live.active, live.waiting));
      case StoppedTick(pages) => LoadedKeeps(st, config.stoppedPageSize, pages);
      case _ =>
    }
  }

  /** Store errors are never worth an automatic retry. */
  ghost predicate Final(e: Effect) {
    e.error.Some? ==> !e.error.value.retryable
  }

  lemma InitialPagedKeeps(st: StoreState, initial: Initial)
    requires st.Valid()
    ensures Keeps(st, InitialPaged(st, st.session.generation, initial)) &&
            Final(InitialPaged(st, st.session.generation, initial))
  {
    var (g, p) := (st.session.generation, initial.stopped);
    OpKeeps(st, Stat(g, initial.stat));
    var counted := Finished(st, UpdateGlobalStat(st, g, initial.stat));
    OpKeeps(counted.store, StoreOp.Page(g, p.offset, Some(p.total), p.tasks));
  }

  lemma InitialLiveKeeps(st: StoreState, initial: Initial)
    requires st.Valid()
    ensures Keeps(st, InitialLive(st, st.session.generation, initial)) &&
            Final(InitialLive(st, st.session.generation, initial))
  {
    InitialPagedKeeps(st, initial);
    var paged := InitialPaged(st, st.session.generation, initial);
    OpKeeps(paged.store, Reconcile(st.session.generation, initial.live.active, initial.live.waiting));
  }

  /** The last part of a first synchronization: seed, then declare the store fresh. */
  lemma FreshKeeps(st: StoreState, history: HistoryAnswer)
    requires st.Valid()
    ensures var seeded := SeedInto(st, st.session.generation, history);
            var e := Finished(seeded, SetStale(seeded, st.session.generation, false));
            e.error.None? && e.store.Valid() && e.store.session == st.session && !e.store.stale
  {
    SeedIntoFacts(st, st.session.generation, history);
    PerformValid(SeedInto(st, st.session.generation, history), Stale(st.session.generation, false));
  }

  /** A first snapshot clears the staleness, or fails for good. */
  lemma InitialKeeps(st: StoreState, initial: Initial, history: HistoryAnswer)
    requires st.Valid()
    ensures var e := ApplyInitial(st, st.session.generation, initial, history);
            && e.store.Valid() && e.store.session == st.session
            && (e.error.None? ==> !e.store.stale)
            && (e.error.Some? ==> Benign(e.error.value)) && Final(e)
  {
    InitialLiveKeeps(st, initial);
    var live := InitialLive(st, st.session.generation, initial);
    if live.error.None? {
      FreshKeeps(live.store, history);
    }
  }

  /** The coordinator's load-more request is the one whose repetition converges. */
  lemma LoadPageIsLoadMore(st: StoreState, engine: seq<TaskSnapshot>, pageSize: U32, history: HistoryAnswer)
    requires |engine| <= U64_MAX
    ensures var offset := Pages.NextOffset(st.stoppedPages, 0);
            var answer := Success(StoppedPage(offset, |engine|, EnginePage(engine, offset, pageSize)));
            var e := LoadPage(st, st.session.generation, answer, history);
            match LoadMore(st, engine, pageSize, history)
            case Success(after) => e == Effect(after, None)
            case Failure(error) => e == Effect(st, Some(StoreFailure(error)))
  {
  }

  // ----- The first snapshot

  /** The gids of a first snapshot's stopped page that lie below its total. */
  function FirstPage(initial: Initial): set<Gid>
    requires initial.stopped.offset <= initial.stopped.total
  {
    PageGids(initial.stopped)
  }

  lemma InitialPagedStore(st: StoreState, initial: Initial)
    requires st.Valid() && InitialPaged(st, st.session.generation, initial).error.None?
    ensures initial.stopped.offset <= initial.stopped.total
    ensures var paged := InitialPaged(st, st.session.generation, initial).store;
            && paged.session == st.session && paged.globalStat == initial.stat
            && paged.stoppedTotal == Some(initial.stopped.total)
            && paged.Live() == st.Live() - FirstPage(initial)
            && paged.tasks.Keys == st.tasks.Keys + FirstPage(initial)
  {
    var p := initial.stopped;
    var counted := UpdateGlobalStat(st, st.session.generation, initial.stat).store;
    PageAppliedMoves(counted, p.offset, Some(p.total), Kept(p.offset, Some(p.total), p.tasks));
  }

  lemma LiveTaken(st: StoreState, live: LiveSnapshot)
    requires st.Valid() && ReconcileLive(st, st.session.generation, live.active, live.waiting).Applied?
    ensures var after := ReconcileLive(st, st.session.generation, live.active, live.waiting).store;
            var newLive := Elems(Gids(live.active)) + Elems(Gids(live.waiting));
            && after.session == st.session && after.globalStat == st.globalStat && after.stoppedTotal == st.stoppedTotal
            && after.activeOrder == Gids(live.active) && after.waitingOrder == Gids(live.waiting)
            && after.tasks.Keys == st.tasks.Keys + newLive - (st.Live() - newLive)
  {
    LiveGids(live.active, live.waiting);
    ReconciledKeys(st, live.active, live.waiting);
  }

  lemma InitialLiveStore(st: StoreState, initial: Initial)
    requires st.Valid() && InitialLive(st, st.session.generation, initial).error.None?
    ensures InitialPaged(st, st.session.generation, initial).error.None?
    ensures var (paged, live) := (InitialPaged(st, st.session.generation, initial).store,
                                  InitialLive(st, st.session.generation, initial).store);
            var newLive := Elems(Gids(initial.live.active)) + Elems(Gids(initial.live.waiting));
            && live.Valid() && live.session == st.session
            && live.globalStat == paged.globalStat && live.stoppedTotal == paged.stoppedTotal
            && live.activeOrder == Gids(initial.live.active) && live.waitingOrder == Gids(initial.live.waiting)
            && live.tasks.Keys == paged.tasks.Keys + newLive - (paged.Live() - newLive)
  {
    InitialPagedKeeps(st, initial);
    InitialLiveKeeps(st, initial);
    LiveTaken(InitialPaged(st, st.session.generation, initial).store, initial.live);
  }

  lemma SeedIntoStat(st: StoreState, generation: U64, history: HistoryAnswer)
    ensures SeedInto(st, generation, history).globalStat == st.globalStat
  {
  }

  /**
   A first snapshot is taken over whole: its statistics, its total and both live lists. Of the tasks kept from
   before the reconnect only those vanish that were live and that the snapshot mentions nowhere.
   */
  lemma InitialTakesSnapshot(st: StoreState, initial: Initial, history: HistoryAnswer)
    requires st.Valid() && ApplyInitial(st, st.session.generation, initial, history).error.None?
    ensures initial.stopped.offset <= initial.stopped.total
    ensures var after := ApplyInitial(st, st.session.generation, initial, history).store;
            var (active, waiting) := (Gids(initial.live.active), Gids(initial.live.waiting));
            && after.globalStat == initial.stat && after.stoppedTotal == Some(initial.stopped.total)
            && after.activeOrder == active && after.waitingOrder == waiting
            && st.tasks.Keys - (st.Live() - FirstPage(initial) - Elems(active) - Elems(waiting)) <= after.tasks.Keys
            && FirstPage(initial) <= after.tasks.Keys
  {
    InitialLiveStore(st, initial);
    InitialPagedStore(st, initial);
    var live := InitialLive(st, st.session.generation, initial).store;
    SeedIntoFacts(live, st.session.generation, history);
    SeedIntoKeeps(live, st.session.generation, history);
    SeedIntoStat(live, st.session.generation, history);
  }

  // ----- The log

  predicate Goes(shown: ConnectionState) {
    shown.Disconnected? || shown.Reconnecting? || shown.Failed?
  }

  /** What each observable event promises on its own. */
  predicate EventOk(config: Config, e: Event) {
    match e
    case Attempted(_) => true
    case AttemptFailed(error) => Benign(error)
    case Reset(ManualRetry) => true
    case Reset(Lasted(duration)) => duration >= config.reconnect.resetAfter
    case Served(shown, stale) => (shown == Connected ==> !stale) && (Goes(shown) ==> stale)
    case Called(asked, current, during) => asked == current && during == Connected
  }

  ghost predicate AllOk(config: Config, log: seq<Event>) {
    forall i :: 0 <= i < |log| ==> EventOk(config, log[i])
  }

  function Attempts(log: seq<Event>): nat {
    if log == [] then 0 else Attempts(log[..|log| - 1]) + (if log[|log| - 1].Attempted? then 1 else 0)
  }

  /** Failed attempts since the last reset. */
  function Failures(log: seq<Event>): nat {
    if log == [] then 0
    else
      match log[|log| - 1]
      case Reset(_) => 0
      case AttemptFailed(_) => Failures(log[..|log| - 1]) + 1
      case _ => Failures(log[..|log| - 1])
  }

  /** At no moment of the log have more than `budget` attempts failed since a reset. */
  ghost predicate WithinBudget(log: seq<Event>, budget: nat) {
    forall n :: 0 <= n <= |log| ==> Failures(log[..n]) <= budget
  }

  lemma LogSnoc(config: Config, log: seq<Event>, e: Event)
    ensures Attempts(log + [e]) == Attempts(log) + (if e.Attempted? then 1 else 0)
    ensures Failures(log + [e]) == if e.Reset? then 0 else Failures(log) + (if e.AttemptFailed? then 1 else 0)
    ensures AllOk(config, log) && EventOk(config, e) ==> AllOk(config, log + [e])
  {
    assert (log + [e])[..|log|] == log;
  }

  lemma BudgetSnoc(log: seq<Event>, e: Event, budget: nat)
    requires WithinBudget(log, budget) && Failures(log + [e]) <= budget
    ensures WithinBudget(log + [e], budget)
  {
    var all := log + [e];
    forall n | 0 <= n <= |all| ensures Failures(all[..n]) <= budget {
      if n <= |log| {
        assert all[..n] == log[..n];
      } else {
        assert all[..n] == all;
      }
    }
  }

  // ----- The invariant

  function Budget(config: Config): nat
    requires config.reconnect.maxAttempts.Some?
  {
    Max(1, config.reconnect.maxAttempts.value)
  }

  ghost predicate StoreOk(config: Config, c: Coordinator) {
    c.store.Valid() && c.store.session.generation == c.generation && c.store.session.profileId == config.profileId
  }

  ghost predicate PhaseOk(c: Coordinator) {
    match c.phase
    case AwaitConnect =>
      (c.state == Connecting || (c.state.Reconnecting? && c.store.stale)) &&
      c.failureAttempt == SatInc32(c.attempt)
    case AwaitSnapshot => c.state == Authenticating && c.failureAttempt == SatInc32(c.attempt)
    case Online(_) => c.state == Connected && !c.store.stale
    case AwaitManual => c.state.Failed? && c.store.stale
    case AwaitDelay => c.state.Disconnected? && c.store.stale
    case Ended => true
  }

  ghost predicate LogOk(config: Config, c: Coordinator) {
    AllOk(config, c.log) && c.generation == Min(Attempts(c.log), U64_MAX) && Attempts(c.log) >= 1
  }

  /** With a limit, the backoff counts the failures since the last reset, and never runs past it. */
  ghost predicate BudgetOk(config: Config, c: Coordinator) {
    config.reconnect.maxAttempts.Some? ==>
      WithinBudget(c.log, Budget(config)) &&
      (!c.phase.AwaitManual? && !c.phase.Ended? ==>
        c.attempt == Failures(c.log) && Failures(c.log) < Budget(config))
  }

  ghost predicate Inv(config: Config, c: Coordinator) {
    StoreOk(config, c) && PhaseOk(c) && LogOk(config, c) && BudgetOk(config, c)
  }

  lemma NextAttemptInv(config: Config, c: Coordinator, freshId: nat)
    requires StoreOk(config, c) && LogOk(config, c)
    requires config.reconnect.maxAttempts.Some? ==>
               WithinBudget(c.log, Budget(config)) && c.attempt == Failures(c.log) && Failures(c.log) < Budget(config)
    ensures Inv(config, NextAttempt(config, c, freshId))
    ensures var n := NextAttempt(config, c, freshId);
            n.phase == AwaitConnect && n.generation == SatInc(c.generation) && Attempts(n.log) == Attempts(c.log) + 1
  {
    var g := SatInc(c.generation);
    PerformValid(c.store, Begin(EngineSession(config.profileId, freshId, g)));
    LogSnoc(config, c.log, Attempted(g));
    if config.reconnect.maxAttempts.Some? {
      BudgetSnoc(c.log, Attempted(g), Budget(config));
    }
  }

  /** A failure of an attempt, however it came about. */
  lemma FailAttemptInv(config: Config, c: Coordinator, error: SyncError)
    requires StoreOk(config, c) && LogOk(config, c) && Benign(error)
    requires config.reconnect.maxAttempts.Some? ==>
               WithinBudget(c.log, Budget(config)) && c.attempt == Failures(c.log) && Failures(c.log) < Budget(config)
    ensures Inv(config, FailAttempt(config, c, error, SatInc32(c.attempt)))
    ensures Inv(config, Failing(c, error).(phase := AwaitManual, state := Failed(error)))
  {
    PerformValid(c.store, Stale(c.generation, true));
    LogSnoc(config, c.log, AttemptFailed(error));
    if config.reconnect.maxAttempts.Some? {
      BudgetSnoc(c.log, AttemptFailed(error), Budget(config));
    }
  }

  lemma ResetOk(config: Config, c: Coordinator, reason: ResetReason)
    requires LogOk(config, c) && EventOk(config, Reset(reason))
    requires config.reconnect.maxAttempts.Some? ==> WithinBudget(c.log, Budget(config))
    ensures var r := c.(attempt := 0, log := c.log + [Reset(reason)]);
            && LogOk(config, r)
            && (config.reconnect.maxAttempts.Some? ==>
                  WithinBudget(r.log, Budget(config)) && r.attempt == Failures(r.log) &&
                  Failures(r.log) < Budget(config))
  {
    LogSnoc(config, c.log, Reset(reason));
    if config.reconnect.maxAttempts.Some? {
      BudgetSnoc(c.log, Reset(reason), Budget(config));
    }
  }

  lemma DropInv(config: Config, c: Coordinator, error: SyncError, duration: nat)
    requires StoreOk(config, c) && LogOk(config, c) && Benign(error)
    requires config.reconnect.maxAttempts.Some? ==>
               WithinBudget(c.log, Budget(config)) && c.attempt == Failures(c.log) && Failures(c.log) < Budget(config)
    ensures Inv(config, Drop(config, c, error, duration))
  {
    if duration >= config.reconnect.resetAfter {
      ResetOk(config, c, Lasted(duration));
      FailAttemptInv(config, c.(attempt := 0, log := c.log + [Reset(Lasted(duration))]), error);
    } else {
      FailAttemptInv(config, c, error);
    }
  }

  /** Events that neither fail, reset nor attempt. */
  lemma NotedInv(config: Config, c: Coordinator, e: Event)
    requires Inv(config, c) && EventOk(config, e) && (e.Served? || e.Called?)
    ensures Inv(config, c.(log := c.log + [e]))
  {
    LogSnoc(config, c.log, e);
    assert c.log[..|c.log|] == c.log;
    if config.reconnect.maxAttempts.Some? {
      BudgetSnoc(c.log, e, Budget(config));
    }
  }

  lemma WaitingInv(config: Config, c: Coordinator, turn: Turn, retryable: bool)
    requires Inv(config, c) && !c.phase.Online? && !c.phase.Ended? &&
             (retryable ==> c.phase.AwaitManual? || c.phase.AwaitDelay?)
    ensures Inv(config, WaitTurn(config, c, turn, retryable))
  {
    match turn.input {
      case ServeSnapshot =>
        NotedInv(config, c, Served(c.state, c.store.stale));
      case ForceRefresh(_, _) =>
        if retryable && c.phase.AwaitManual? {
          ResetOk(config, c, ManualRetry);
          NextAttemptInv(config, c.(attempt := 0, log := c.log + [Reset(ManualRetry)]), turn.freshId);
        } else if retryable {
          NextAttemptInv(config, c, turn.freshId);
        }
      case _ =>
    }
  }

  lemma AbsorbInv(config: Config, c: Coordinator, effect: Effect, duration: nat)
    requires Inv(config, c) && c.phase.Online? && Keeps(c.store, effect)
    ensures Inv(config, Absorb(config, c, effect, duration))
  {
    if effect.error.Some? {
      DropInv(config, c.(store := effect.store), effect.error.value, duration);
    }
  }

  lemma ServingInv(config: Config, c: Coordinator, turn: Turn)
    requires Inv(config, c) && c.phase.Online? && TurnOk(turn)
    ensures Inv(config, ServeTurn(config, c, turn))
  {
    var duration := SatSub(turn.now, c.phase.since);
    match turn.input {
      case ServeSnapshot => NotedInv(config, c, Served(c.state, c.store.stale));
      case ApplySetting(session, gateway) =>
        if session == c.store.session && gateway {
          NotedInv(config, c, Called(session, c.store.session, c.state));
        }
      case Execute(session, gateway, effect) =>
        if session == c.store.session && gateway {
          NotedInv(config, c, Called(session, c.store.session, c.state));
          CommandKeeps(c.store, effect);
          AbsorbInv(config, c.(log := c.log + [Called(session, c.store.session, c.state)]),
                    ApplyCommand(c.store, c.generation, effect), duration);
        }
      case Cancel =>
      case ChannelClosed =>
      case _ =>
        OnlineKeeps(config, c.store, turn);
        match OnlineEffect(config, c.store, c.generation, turn.input) {
          case Some(effect) => AbsorbInv(config, c, effect, duration);
          case None =>
        }
    }
  }

  lemma SnapshotInv(config: Config, c: Coordinator, initial: Initial, history: HistoryAnswer, now: nat)
    requires Inv(config, c) && c.phase == AwaitSnapshot
    ensures var effect := ApplyInitial(c.store, c.generation, initial, history);
            var applied := c.(store := effect.store);
            Inv(config, if effect.error.Some? then Failing(applied, effect.error.value).(phase := AwaitManual)
                        else applied.(phase := Online(now), state := Connected))
  {
    InitialKeeps(c.store, initial, history);
    var effect := ApplyInitial(c.store, c.generation, initial, history);
    if effect.error.Some? {
      FailAttemptInv(config, c.(store := effect.store), effect.error.value);
    }
  }

  lemma SynchronizeInv(config: Config, c: Coordinator, turn: Turn)
    requires Inv(config, c) && c.phase == AwaitSnapshot && TurnOk(turn)
    ensures Inv(config, SynchronizeTurn(config, c, turn))
  {
    match turn.input {
      case SnapshotDone(Failure(error), _) => FailAttemptInv(config, c, error);
      case SnapshotDone(Success(initial), history) =>
        SnapshotInv(config, c, initial, history, turn.now);
      case _ => WaitingInv(config, c, turn, false);
    }
  }

  lemma StepInv(config: Config, c: Coordinator, turn: Turn)
    requires Inv(config, c) && TurnOk(turn)
    ensures Inv(config, Step(config, c, turn))
  {
    match c.phase {
      case AwaitConnect =>
        match turn.input {
          case ConnectDone(Some(error)) => FailAttemptInv(config, c, error);
          case ConnectDone(None) =>
          case _ => WaitingInv(config, c, turn, false);
        }
      case AwaitSnapshot => SynchronizeInv(config, c, turn);
      case Online(_) => ServingInv(config, c, turn);
      case AwaitManual => WaitingInv(config, c, turn, true);
      case AwaitDelay =>
        if turn.input.DelayElapsed? {
          NextAttemptInv(config, c, turn.freshId);
        } else {
          WaitingInv(config, c, turn, true);
        }
      case Ended =>
    }
  }

  // ----- Every run

  lemma StartInv(config: Config, sessionId: nat, lower: string -> string, records: Option<seq<HistoryRecord>>)
    ensures Inv(config, Start(config, sessionId, lower, records))
  {
    var store := NewStore(EngineSession(config.profileId, sessionId, 1), lower);
    SeedIntoFacts(store, 1, HistoryAnswer(records, None));
    LogSnoc(config, [], Attempted(1));
    assert [] + [Attempted(1)] == [Attempted(1)];
    if config.reconnect.maxAttempts.Some? {
      assert WithinBudget([], Budget(config));
      BudgetSnoc([], Attempted(1), Budget(config));
    }
  }

  lemma {:induction false} RunInv(config: Config, start: Coordinator, turns: seq<Turn>)
    requires Inv(config, start) && forall t :: t in turns ==> TurnOk(t)
    ensures Inv(config, RunTurns(config, start, turns))
  {
    if turns != [] {
      var init, last := turns[..|turns| - 1], turns[|turns| - 1];
      assert last in turns && forall t :: t in init ==> t in turns;
      RunInv(config, start, init);
      StepInv(config, RunTurns(config, start, init), last);
    }
  }

  /**
   The generation of the store is the coordinator's own and counts the attempts, so whatever the coordinator
   asks of its store, the answer is never "stale generation".
   */
  lemma GenerationsAgree(config: Config, start: Coordinator, turns: seq<Turn>, op: StoreOp)
    requires Inv(config, start) && forall t :: t in turns ==> TurnOk(t)
    ensures var c := RunTurns(config, start, turns);
            && c.store.session.generation == c.generation == Min(Attempts(c.log), U64_MAX)
            && (!op.Begin? && op.generation == c.generation && Perform(c.store, op).Rejected? ==>
                  !Perform(c.store, op).error.StaleGeneration?)
            && (forall i :: 0 <= i < |c.log| && c.log[i].AttemptFailed? ==> Benign(c.log[i].error))
  {
    RunInv(config, start, turns);
    var c := RunTurns(config, start, turns);
    assert AllOk(config, c.log);
    forall i | 0 <= i < |c.log| && c.log[i].AttemptFailed? ensures Benign(c.log[i].error) {
      assert EventOk(config, c.log[i]);
    }
  }

  /**
   What a client ever sees: a snapshot of a connected coordinator is fresh, one of a disconnected,
   reconnecting or failed one is marked stale; and engine calls happen only while connected, for exactly the
   session the caller named, which is the store's.
   */
  lemma SnapshotsAndCallsAreHonest(config: Config, start: Coordinator, turns: seq<Turn>, i: nat)
    requires Inv(config, start) && forall t :: t in turns ==> TurnOk(t)
    requires i < |RunTurns(config, start, turns).log|
    ensures match RunTurns(config, start, turns).log[i]
            case Served(shown, stale) =>
              (shown == Connected ==> !stale) &&
              (shown.Disconnected? || shown.Reconnecting? || shown.Failed? ==> stale)
            case Called(asked, current, during) => asked == current && during == Connected
            case Reset(Lasted(duration)) => duration >= config.reconnect.resetAfter
            case _ => true
  {
    RunInv(config, start, turns);
    assert EventOk(config, RunTurns(config, start, turns).log[i]);
  }

  // ----- The retry budget

  function FailedIn(log: seq<Event>): nat {
    if log == [] then 0 else FailedIn(log[..|log| - 1]) + (if log[|log| - 1].AttemptFailed? then 1 else 0)
  }

  lemma {:induction false} FailuresCount(log: seq<Event>, i: nat, j: nat)
    requires i <= j <= |log| && forall k :: i <= k < j ==> !log[k].Reset?
    ensures FailedIn(log[i..j]) <= Failures(log[..j])
    decreases j
  {
    if i < j {
      FailuresCount(log, i, j - 1);
      assert log[i..j][..j - 1 - i] == log[i..j - 1];
      assert log[..j][..j - 1] == log[..j - 1];
    }
  }

  /** With a limit `m`, at most `max(1, m)` attempts fail between two resets, in every run. */
  lemma RetryBudget(config: Config, start: Coordinator, turns: seq<Turn>, i: nat, j: nat)
    requires Inv(config, start) && forall t :: t in turns ==> TurnOk(t)
    requires config.reconnect.maxAttempts.Some?
    requires i <= j <= |RunTurns(config, start, turns).log|
    requires forall k :: i <= k < j ==> !RunTurns(config, start, turns).log[k].Reset?
    ensures FailedIn(RunTurns(config, start, turns).log[i..j]) <= Max(1, config.reconnect.maxAttempts.value)
  {
    RunInv(config, start, turns);
    FailuresCount(RunTurns(config, start, turns).log, i, j);
  }

  /** This many failures since the last reset exhaust the limit, if there is one. */
  predicate Spent(config: Config, failures: nat) {
    config.reconnect.maxAttempts.Some? && failures >= config.reconnect.maxAttempts.value
  }

  /** Where a failure leads: it is final, or the coordinator backs off and will try again. */
  ghost predicate Leads(r: Coordinator, gaveUp: bool) {
    && r.phase == (if gaveUp then AwaitManual else AwaitDelay)
    && (if gaveUp then r.state.Failed? else r.state.Disconnected?)
  }

  lemma FailureLeads(config: Config, c: Coordinator, error: SyncError)
    requires config.reconnect.maxAttempts.Some? ==> c.attempt == Failures(c.log) && Failures(c.log) < Budget(config)
    ensures Leads(FailAttempt(config, c, error, SatInc32(c.attempt)), !error.retryable ||
                  Spent(config, Failures(c.log) + 1))
  {
  }

  /** A failed connection or snapshot request is final exactly when it is not retryable or the budget is spent. */
  lemma GivesUpIffSpent(config: Config, c: Coordinator, turn: Turn, error: SyncError)
    requires PhaseOk(c) && BudgetOk(config, c)
    requires (c.phase == AwaitConnect && turn.input == ConnectDone(Some(error))) ||
             (c.phase == AwaitSnapshot && turn.input.SnapshotDone? && turn.input.initial == Failure(error))
    ensures Leads(Step(config, c, turn), !error.retryable || Spent(config, Failures(c.log) + 1))
  {
    FailureLeads(config, c, error);
  }

  /** So is a dropped connection, which counts as the first failure again if it lasted long enough. */
  lemma DropGivesUpIffSpent(config: Config, c: Coordinator, error: SyncError, duration: nat)
    requires BudgetOk(config, c) && c.phase.Online?
    ensures var failures := if duration >= config.reconnect.resetAfter then 1 else Failures(c.log) + 1;
            Leads(Drop(config, c, error, duration), !error.retryable || Spent(config, failures))
  {
    if duration >= config.reconnect.resetAfter {
      LogSnoc(config, c.log, Reset(Lasted(duration)));
      FailureLeads(config, c.(attempt := 0, log := c.log + [Reset(Lasted(duration))]), error);
    } else {
      FailureLeads(config, c, error);
    }
  }

  /** Once the budget is spent the coordinator sits in Failed, and nothing but a forced refresh connects again. */
  lemma {:induction false} FailedSits(config: Config, c: Coordinator, turns: seq<Turn>)
    requires Inv(config, c) && c.phase == AwaitManual
    requires forall t :: t in turns ==> TurnOk(t) && !t.input.ForceRefresh?
    ensures var r := RunTurns(config, c, turns);
            && (r.phase == AwaitManual || r.phase == Ended)
            && r.state == c.state && r.state.Failed? && r.store == c.store && r.generation == c.generation
            && Attempts(r.log) == Attempts(c.log)
  {
    if turns != [] {
      var init, last := turns[..|turns| - 1], turns[|turns| - 1];
      assert last in turns && forall t :: t in init ==> t in turns;
      FailedSits(config, c, init);
      var before := RunTurns(config, c, init);
      LogSnoc(config, before.log, Served(before.state, before.store.stale));
    }
  }

  lemma NextAttemptShows(config: Config, c: Coordinator, freshId: nat)
    requires StoreOk(config, c)
    ensures var n := NextAttempt(config, c, freshId);
            && n.phase == AwaitConnect && n.generation == SatInc(c.generation) && n.attempt == c.attempt
            && n.state == Reconnecting(Max(c.attempt, 1)) && n.log == c.log + [Attempted(n.generation)]
            && n.store.session == EngineSession(config.profileId, freshId, n.generation)
  {
  }

  /** A forced refresh is what ends the wait: a reset, and a connection attempt of the next generation. */
  lemma ForcedRefreshRetries(config: Config, c: Coordinator, turn: Turn)
    requires StoreOk(config, c) && (c.phase == AwaitManual || c.phase == AwaitDelay) && turn.input.ForceRefresh?
    ensures var r := Step(config, c, turn);
            && r.phase == AwaitConnect && r.generation == SatInc(c.generation) && Attempts(r.log) == Attempts(c.log) + 1
            && r.attempt == (if c.phase == AwaitManual then 0 else c.attempt)
            && r.state == Reconnecting(Max(r.attempt, 1))
            && r.store.session == EngineSession(config.profileId, turn.freshId, r.generation)
  {
    if c.phase == AwaitManual {
      var rested := c.(attempt := 0, log := c.log + [Reset(ManualRetry)]);
      LogSnoc(config, c.log, Reset(ManualRetry));
      NextAttemptShows(config, rested, turn.freshId);
      LogSnoc(config, rested.log, Attempted(SatInc(c.generation)));
    } else {
      NextAttemptShows(config, c, turn.freshId);
      LogSnoc(config, c.log, Attempted(SatInc(c.generation)));
    }
  }

  /** The backoff starts over only on a manual retry or after a connection that lasted long enough. */
  lemma ResetsAreEarned(config: Config, c: Coordinator, turn: Turn)
    requires Step(config, c, turn).attempt < c.attempt
    ensures (c.phase == AwaitManual && turn.input.ForceRefresh?) ||
            (c.phase.Online? && SatSub(turn.now, c.phase.since) >= config.reconnect.resetAfter)
  {
  }
}
