/**
 The synchronization coordinator as a step machine. Each turn is one completed wait of the source:
 a control message, a network result, a timer or a closed channel.
 */
module Coordinator {
  import opened Prelude
  import opened Tasks
  import opened StoreSpec
  import opened Paging
  import opened Refresh
  import opened Backoff
  import Text

  datatype ConnectionState =
    | Disconnected | Connecting | Authenticating | Synchronizing | Connected
    | Reconnecting(attempt: nat) | Failed(error: SyncError)

  datatype Config = Config(profileId: nat, reconnect: ReconnectPolicy, stoppedPageSize: U32)

  /** Where the coordinator waits. */
  datatype Phase = AwaitConnect | AwaitSnapshot | Online(since: nat) | AwaitManual | AwaitDelay | Ended

  datatype ResetReason = ManualRetry | Lasted(duration: nat)

  /** What the outside can observe, in order. */
  datatype Event =
    | Attempted(generation: U64)
    | AttemptFailed(error: SyncError)
    | Reset(reason: ResetReason)
    | Served(shown: ConnectionState, stale: bool)
    | Called(asked: EngineSession, current: EngineSession, during: ConnectionState)

  datatype Coordinator = Coordinator(
    phase: Phase,
    generation: U64,
    store: StoreState,
    state: ConnectionState,
    attempt: U32,
    failureAttempt: U32,
    log: seq<Event>)

  datatype Initial = Initial(version: string, stat: GlobalStat, live: LiveSnapshot, stopped: StoppedPage)

  /** A finished command: the name it set, and the gids whose history rows it removed. */
  datatype CommandEffect = CommandEffect(renamed: Option<(Gid, string)>, removed: seq<Gid>)

  datatype Input =
    | Cancel
    | ChannelClosed
    | SetActivity
    | ForceRefresh(answers: EngineAnswers, history: HistoryAnswer)
    | LoadMoreStopped(page: PageAnswer, history: HistoryAnswer)
    | SetTaskCategory(gid: Gid, category: Option<string>)
    | ServeSnapshot
    | Execute(session: EngineSession, gateway: bool, effect: CommandEffect)
    | ApplySetting(session: EngineSession, gateway: bool)
    | ConnectDone(refused: Option<SyncError>)
    | SnapshotDone(initial: Result<Initial, SyncError>, history: HistoryAnswer)
    | DelayElapsed
    | NotificationsClosed
    | RefreshTasks(tasks: Result<seq<(Gid, Option<TaskSnapshot>)>, SyncError>)
    | GlobalTick(stat: Result<GlobalStat, SyncError>)
    | LiveTick(live: Result<LiveSnapshot, SyncError>)
    | StoppedTick(pages: U64 -> PageAnswer)

  /** An input, the clock, and the random session id a new attempt would take. */
  datatype Turn = Turn(input: Input, now: nat, freshId: nat)

  // ----- Steps of the outer loop

  function Start(config: Config, sessionId: nat, lower: string -> string,
                 records: Option<seq<HistoryRecord>>): Coordinator {
    var store := NewStore(EngineSession(config.profileId, sessionId, 1), lower);
    Coordinator(AwaitConnect, 1, SeedInto(store, 1, HistoryAnswer(records, None)), Connecting, 0, 1, [Attempted(1)])
  }

  function NextAttempt(config: Config, c: Coordinator, freshId: nat): Coordinator {
    var generation := SatInc(c.generation);
    match BeginSession(c.store, EngineSession(config.profileId, freshId, generation))
    case Rejected(_) => c.(generation := generation, phase := Ended)
    case Applied(store, _) =>
      c.(phase := AwaitConnect, generation := generation, store := store,
         state := Reconnecting(Max(c.attempt, 1)), failureAttempt := SatInc32(c.attempt),
         log := c.log + [Attempted(generation)])
  }

  function MarkedStale(st: StoreState, generation: U64): StoreState {
    match SetStale(st, generation, true)
    case Applied(after, _) => after
    case Rejected(_) => st
  }

  /** `handle_connection_failure`. */
  function Failing(c: Coordinator, error: SyncError): Coordinator {
    c.(store := MarkedStale(c.store, c.generation),
       state := if error.retryable then ConnectionState.Disconnected else Failed(error),
       log := c.log + [AttemptFailed(error)])
  }

  /** A failed attempt waits for a manual retry, or backs off while the limit allows it. */
  function FailAttempt(config: Config, c: Coordinator, error: SyncError, failureAttempt: U32): Coordinator {
    var failing := Failing(c, error);
    if !error.retryable then failing.(phase := AwaitManual)
    else if LimitReached(config.reconnect, failureAttempt) then failing.(phase := AwaitManual, state := Failed(error))
    else failing.(phase := AwaitDelay, attempt := SatInc32(c.attempt))
  }

  /** A dropped connection that lasted long enough starts the backoff over. */
  function Drop(config: Config, c: Coordinator, error: SyncError, duration: nat): Coordinator {
    var rested :=
      if duration >= config.reconnect.resetAfter
      then c.(attempt := 0, log := c.log + [Reset(Lasted(duration))]) else c;
    FailAttempt(config, rested, error, SatInc32(rested.attempt))
  }

  function Serve(c: Coordinator): Coordinator {
    c.(log := c.log + [Served(c.state, c.store.stale)])
  }

  // ----- Applying engine results to the store

  /** The store a step leaves, and the error that stopped it. */
  datatype Effect = Effect(store: StoreState, error: Option<SyncError>)

  function Finished(st: StoreState, outcome: Outcome): Effect {
    match outcome
    case Applied(after, _) => Effect(after, None)
    case Rejected(error) => Effect(st, Some(StoreFailure(error)))
  }

  function InitialPaged(st: StoreState, generation: U64, initial: Initial): Effect {
    var counted := Finished(st, UpdateGlobalStat(st, generation, initial.stat));
    var p := initial.stopped;
    if counted.error.Some? then counted
    else Finished(counted.store, ApplyStoppedPage(counted.store, generation, p.offset, Some(p.total), p.tasks))
  }

  function InitialLive(st: StoreState, generation: U64, initial: Initial): Effect {
    var paged := InitialPaged(st, generation, initial);
    if paged.error.Some? then paged
    else Finished(paged.store, ReconcileLive(paged.store, generation, initial.live.active, initial.live.waiting))
  }

  function ApplyInitial(st: StoreState, generation: U64, initial: Initial, history: HistoryAnswer): Effect {
    if Text.Trim(initial.version) == "" then Effect(st, Some(SyncError(Protocol, None, false)))
    else
      var live := InitialLive(st, generation, initial);
      if live.error.Some? then live
      else
        var seeded := SeedInto(live.store, generation, history);
        Finished(seeded, SetStale(seeded, generation, false))
  }

  function ApplyTargets(st: StoreState, generation: U64, tasks: seq<(Gid, Option<TaskSnapshot>)>): Effect
    decreases |tasks|
  {
    if tasks == [] then Effect(st, None)
    else
      var one := Finished(st, ApplyTaskSnapshot(st, generation, tasks[0].0, tasks[0].1));
      if one.error.Some? then one else ApplyTargets(one.store, generation, tasks[1..])
  }

  function LoadPage(st: StoreState, generation: U64, answer: PageAnswer, history: HistoryAnswer): Effect {
    if !CanLoadMore(st) then Effect(st, None)
    else match answer
      case Failure(error) => Effect(st, Some(error))
      case Success(p) =>
        var paged := Finished(st, ApplyStoppedPage(st, generation, p.offset, Some(p.total), p.tasks));
        if paged.error.Some? then paged else Effect(SeedInto(paged.store, generation, history), None)
  }

  function ApplyCommand(st: StoreState, generation: U64, effect: CommandEffect): Effect {
    var renamed :=
      if effect.renamed.None? then Effect(st, None)
      else Finished(st, SetCustomName(st, generation, effect.renamed.value.0, effect.renamed.value.1));
    if renamed.error.Some? || effect.removed == [] then renamed
    else match RemoveHistoryOnly(renamed.store, generation, effect.removed)
      case Applied(after, _) => Effect(after, None)
      case Rejected(_) => renamed
  }

  function FromRun(run: RefreshRun): Effect {
    Effect(run.store, run.error)
  }

  /** What an online input does to the store; `None` for inputs that do not touch it. */
  function OnlineEffect(config: Config, st: StoreState, generation: U64, input: Input): Option<Effect> {
    match input
    case ForceRefresh(answers, history) =>
      Some(FromRun(RefreshAll(st, generation, config.stoppedPageSize, answers, history)))
    case LoadMoreStopped(page, history) => Some(LoadPage(st, generation, page, history))
    case SetTaskCategory(gid, category) => Some(Effect(SetCategory(st, gid, category), None))
    case NotificationsClosed => Some(Effect(st, Some(SyncError(SyncErrorKind.Disconnected, None, true))))
    case RefreshTasks(Success(tasks)) => Some(ApplyTargets(st, generation, tasks))
    case RefreshTasks(Failure(error)) => Some(Effect(st, Some(error)))
    case GlobalTick(Success(stat)) => Some(Finished(st, UpdateGlobalStat(st, generation, stat)))
    case GlobalTick(Failure(error)) => Some(Effect(st, Some(error)))
    case LiveTick(Success(live)) => Some(Finished(st, ReconcileLive(st, generation, live.active, live.waiting)))
    case LiveTick(Failure(error)) => Some(Effect(st, Some(error)))
    case StoppedTick(pages) =>
      Some(FromRun(RefreshLoaded(RefreshRun(st, {}, {}, None), generation, config.stoppedPageSize, pages)))
    case _ => None
  }

  // ----- One turn

  function WaitTurn(config: Config, c: Coordinator, turn: Turn, retryable: bool): Coordinator {
    match turn.input
    case Cancel => c.(phase := Ended)
    case ChannelClosed => c.(phase := Ended)
    case ServeSnapshot => Serve(c)
    case ForceRefresh(_, _) =>
      if !retryable then c
      else if c.phase == AwaitManual
      then NextAttempt(config, c.(attempt := 0, log := c.log + [Reset(ManualRetry)]), turn.freshId)
      else NextAttempt(config, c, turn.freshId)
    case _ => c
  }

  function ConnectTurn(config: Config, c: Coordinator, turn: Turn): Coordinator {
    match turn.input
    case ConnectDone(Some(error)) => FailAttempt(config, c, error, c.failureAttempt)
    case ConnectDone(None) => c.(phase := AwaitSnapshot, state := Authenticating)
    case _ => WaitTurn(config, c, turn, false)
  }

  function SynchronizeTurn(config: Config, c: Coordinator, turn: Turn): Coordinator {
    match turn.input
    case SnapshotDone(Failure(error), _) => FailAttempt(config, c, error, c.failureAttempt)
    case SnapshotDone(Success(initial), history) =>
      var effect := ApplyInitial(c.store, c.generation, initial, history);
      var applied := c.(store := effect.store);
      if effect.error.Some? then Failing(applied, effect.error.value).(phase := AwaitManual)
      else applied.(phase := Online(turn.now), state := Connected)
    case _ => WaitTurn(config, c, turn, false)
  }

  function Absorb(config: Config, c: Coordinator, effect: Effect, duration: nat): Coordinator {
    var applied := c.(store := effect.store);
    if effect.error.Some? then Drop(config, applied, effect.error.value, duration) else applied
  }

  function ServeTurn(config: Config, c: Coordinator, turn: Turn): Coordinator
    requires c.phase.Online?
  {
    var duration := SatSub(turn.now, c.phase.since);
    match turn.input
    case Cancel => c.(phase := Ended, state := ConnectionState.Disconnected)
    case ChannelClosed => c.(phase := Ended, state := ConnectionState.Disconnected)
    case ServeSnapshot => Serve(c)
    case ApplySetting(session, gateway) =>
      if session != c.store.session || !gateway then c
      else c.(log := c.log + [Called(session, c.store.session, c.state)])
    case Execute(session, gateway, effect) =>
      if session != c.store.session || !gateway then c
      else
        var called := c.(log := c.log + [Called(session, c.store.session, c.state)]);
        Absorb(config, called, ApplyCommand(c.store, c.generation, effect), duration)
    case _ =>
      match OnlineEffect(config, c.store, c.generation, turn.input)
      case Some(effect) => Absorb(config, c, effect, duration)
      case None => c
  }

  function Step(config: Config, c: Coordinator, turn: Turn): Coordinator {
    match c.phase
    case AwaitConnect => ConnectTurn(config, c, turn)
    case AwaitSnapshot => SynchronizeTurn(config, c, turn)
    case Online(_) => ServeTurn(config, c, turn)
    case AwaitManual => WaitTurn(config, c, turn, true)
    case AwaitDelay =>
      if turn.input.DelayElapsed? then NextAttempt(config, c, turn.freshId) else WaitTurn(config, c, turn, true)
    case Ended => c
  }

  function RunTurns(config: Config, start: Coordinator, turns: seq<Turn>): Coordinator {
    if turns == [] then start
    else Step(config, RunTurns(config, start, turns[..|turns| - 1]), turns[|turns| - 1])
  }
}
