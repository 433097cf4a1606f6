/** What a batch command answers for each task, and what it asks of the engine. */
module BatchResults {
  import opened Prelude
  import opened Seqs
  import opened Tasks
  import opened Batch

  // ----- Any batch

  lemma {:induction false} EachAnswered(ids: seq<TaskIdentity>, attempt: TaskIdentity -> Attempt, id: TaskIdentity)
    requires id in ids
    ensures match attempt(id).result
            case Success(answer) => answer in Successes(ids, attempt)
            case Failure(error) => ItemFailure(Some(id), error) in Failures(ids, attempt)
    ensures attempt(id).call.Some? ==> attempt(id).call.value in Calls(ids, attempt)
  {
    if id in ids[..|ids| - 1] {
      EachAnswered(ids[..|ids| - 1], attempt, id);
    }
  }

  /** Every given task is answered in the outcome, and its call is made. */
  lemma SettledEach(tasks: seq<TaskIdentity>, attempt: TaskIdentity -> Attempt, outcome: CommandOutcome,
                    calls: seq<GatewayCall>, id: TaskIdentity)
    requires Settles(tasks, attempt, outcome, calls) && id in tasks
    ensures match attempt(id).result
            case Success(answer) => answer in outcome.Succeeded()
            case Failure(error) => ItemFailure(Some(id), error) in outcome.Failed()
    ensures attempt(id).call.Some? ==> attempt(id).call.value in calls
  {
    assert id in Elems(tasks) && id in Elems(Dedup(tasks));
    EachAnswered(Dedup(tasks), attempt, id);
  }

  function Quiet(ids: seq<TaskIdentity>, attempt: TaskIdentity -> Attempt): set<TaskIdentity> {
    set id | id in ids && attempt(id).call.None?
  }

  /** The calls are those of the tasks that make one, in the order of the tasks. */
  lemma {:induction false} CallsFollow(ids: seq<TaskIdentity>, attempt: TaskIdentity -> Attempt)
    requires Distinct(ids)
    ensures var calling := Without(ids, Quiet(ids, attempt));
            |Calls(ids, attempt)| == |calling| &&
            forall k :: 0 <= k < |calling| ==> attempt(calling[k]).call == Some(Calls(ids, attempt)[k])
  {
    if ids != [] {
      var init, last := ids[..|ids| - 1], ids[|ids| - 1];
      assert ids == init + [last] && last !in Elems(init);
      CallsFollow(init, attempt);
      WithoutSnoc(init, last, Quiet(ids, attempt));
      assert Elems(init) * Quiet(init, attempt) == Elems(init) * Quiet(ids, attempt);
      WithoutSame(init, Quiet(init, attempt), Quiet(ids, attempt));
    }
  }

  function Good(ids: seq<TaskIdentity>, attempt: TaskIdentity -> Attempt): set<TaskIdentity> {
    set id | id in ids && attempt(id).result.Success?
  }

  /** The failures come in the order of the tasks, each with its error. */
  lemma {:induction false} FailuresFollow(ids: seq<TaskIdentity>, attempt: TaskIdentity -> Attempt)
    requires Distinct(ids)
    ensures var failing := Without(ids, Good(ids, attempt));
            |Failures(ids, attempt)| == |failing| &&
            forall k :: 0 <= k < |failing| ==>
              attempt(failing[k]).result.Failure? &&
              Failures(ids, attempt)[k] == ItemFailure(Some(failing[k]), attempt(failing[k]).result.error)
  {
    if ids != [] {
      var init, last := ids[..|ids| - 1], ids[|ids| - 1];
      assert ids == init + [last] && last !in Elems(init);
      FailuresFollow(init, attempt);
      WithoutSnoc(init, last, Good(ids, attempt));
      assert Elems(init) * Good(init, attempt) == Elems(init) * Good(ids, attempt);
      WithoutSame(init, Good(init, attempt), Good(ids, attempt));
    }
  }

  /** Nothing given is a validation failure without a call. */
  lemma NothingGiven(attempt: TaskIdentity -> Attempt, outcome: CommandOutcome, calls: seq<GatewayCall>)
    ensures Settles([], attempt, outcome, calls) <==>
            outcome == FullFailure([ItemFailure(None, Validation)]) && calls == []
  {
  }

  lemma {:induction false} SomeOfEach(ids: seq<TaskIdentity>, attempt: TaskIdentity -> Attempt)
    ensures Successes(ids, attempt) != [] ==> exists id :: id in ids && attempt(id).result.Success?
    ensures Failures(ids, attempt) != [] ==> exists id :: id in ids && attempt(id).result.Failure?
  {
    if ids != [] {
      SomeOfEach(ids[..|ids| - 1], attempt);
      assert ids[|ids| - 1] in ids;
    }
  }

  /** The kind of the outcome: success if every task succeeded, failure if none did, and partial otherwise. */
  lemma OutcomeKind(tasks: seq<TaskIdentity>, attempt: TaskIdentity -> Attempt, outcome: CommandOutcome,
                    calls: seq<GatewayCall>)
    requires tasks != [] && Settles(tasks, attempt, outcome, calls)
    ensures outcome.FullSuccess? <==> forall id :: id in tasks ==> attempt(id).result.Success?
    ensures outcome.FullFailure? <==> forall id :: id in tasks ==> attempt(id).result.Failure?
  {
    var ids := Dedup(tasks);
    DedupDistinct(tasks);
    CountLaw(ids, attempt);
    assert tasks[0] in Elems(tasks) && Elems(tasks) == Elems(ids);
    NoElems(ids);
    forall id | id in tasks
      ensures id in ids
      ensures attempt(id).result.Success? ==> Successes(ids, attempt) != []
      ensures attempt(id).result.Failure? ==> Failures(ids, attempt) != []
    {
      assert id in Elems(tasks) && id in Elems(ids);
      EachAnswered(ids, attempt, id);
    }
    SomeOfEach(ids, attempt);
    forall id | id in ids ensures id in tasks {
      assert id in Elems(ids);
    }
  }

  // ----- Actions

  /** What may be done with a task, told status by status. */
  predicate Admits(status: DownloadStatus, operation: Operation) {
    match status
    case Active | Seeding | Waiting | Verifying => !operation.Resume?
    case Paused => !operation.Pause? && !operation.ForcePause?
    case Complete | Error | Removed => operation.Remove? || operation.ForceRemove?
    case Unknown => false
  }

  /** The engine's methods, and the place of each operation's among them. */
  const METHODS: seq<string> :=
    ["aria2.pause", "aria2.forcePause", "aria2.unpause", "aria2.changePosition", "aria2.remove", "aria2.forceRemove"]

  function Place(operation: Operation): (k: nat)
    ensures k < |METHODS|
  {
    match operation
    case Pause => 0
    case ForcePause => 1
    case Resume => 2
    case MoveInQueue(_) => 3
    case Remove => 4
    case ForceRemove => 5
  }

  /** The probe found the method, or there was no probe. */
  predicate Offers(service: Service, operation: Operation) {
    service.methods != [] ==> METHODS[Place(operation)] in service.methods
  }

  /** What a removal takes away: the result of a task that is over, or the live task; other actions name neither. */
  predicate Targets(operation: Operation, status: DownloadStatus, target: Option<RemovalTarget>) {
    if !operation.Remove? && !operation.ForceRemove? then target == None
    else if status == Complete || status == DownloadStatus.Error ||
    status == Removed then target == Some(DownloadResult)
    else target == Some(LiveTask)
  }

  /** The error of a task that is not acted on, by the first check it fails. */
  predicate Blocks(service: Service, operation: Operation, contexts: Contexts, id: TaskIdentity, error: ErrorCode) {
    if id.profileId != service.profileId then error == WrongProfile
    else if id !in contexts || !Admits(contexts[id].0, operation) then error == Rejected
    else !Offers(service, operation) && error == Unsupported
  }

  ghost predicate Blocked(service: Service, operation: Operation, contexts: Contexts, id: TaskIdentity) {
    exists error :: Blocks(service, operation, contexts, id, error)
  }

  /** The action on one task. */
  predicate ActsOn(operation: Operation, contexts: Contexts, id: TaskIdentity, call: GatewayCall) {
    && call.Act? && call.operation == operation && call.gid == id.gid
    && id in contexts && Targets(operation, contexts[id].0, call.target)
  }

  lemma TablesAgree(operation: Operation, gid: Gid, status: DownloadStatus)
    ensures Batch.Allowed(operation, status) <==> Admits(status, operation)
    ensures RequiredMethod(operation) == METHODS[Place(operation)]
    ensures Targets(operation, status, CallFor(operation, gid, status).target)
  {
  }

  lemma ActionDecides(service: Service, operation: Operation, contexts: Contexts, id: TaskIdentity)
    ensures var a := ActOn(service, operation, contexts, id);
            if Blocked(service, operation, contexts, id)
            then a.call == None && a.result.Failure? && Blocks(service, operation, contexts, id, a.result.error)
            else
              && a.call.Some? && ActsOn(operation, contexts, id, a.call.value)
              && a.result == match service.act(a.call.value)
                             case Success(_) => Success(id)
                             case Failure(error) => Failure(error)
  {
    var a := ActOn(service, operation, contexts, id);
    if a.call.None? {
      assert Blocks(service, operation, contexts, id, a.result.error);
    } else {
      TablesAgree(operation, id.gid, contexts[id].0);
    }
  }

  /**
   What a batch answers for one of its tasks: the error of the first check it fails, without touching it; or
   the engine's answer to the action on it.
   */
  lemma ActionAnswers(service: Service, operation: Operation, contexts: Contexts, tasks: seq<TaskIdentity>,
                      outcome: CommandOutcome, calls: seq<GatewayCall>, id: TaskIdentity)
    requires Settles(tasks, other => ActOn(service, operation, contexts, other), outcome, calls) && id in tasks
    ensures if Blocked(service, operation, contexts, id)
            then exists error :: Blocks(service, operation, contexts, id, error) &&
                                 ItemFailure(Some(id), error) in outcome.Failed()
            else
              exists call :: call in calls && ActsOn(operation, contexts, id, call) &&
                match service.act(call)
                case Success(_) => id in outcome.Succeeded()
                case Failure(error) => ItemFailure(Some(id), error) in outcome.Failed()
  {
    ActionDecides(service, operation, contexts, id);
    SettledEach(tasks, other => ActOn(service, operation, contexts, other), outcome, calls, id);
  }

  ghost function BlockedAmong(service: Service, operation: Operation, contexts: Contexts,
                              tasks: seq<TaskIdentity>): set<TaskIdentity> {
    set id | id in tasks && Blocked(service, operation, contexts, id)
  }

  lemma BlockedAreQuiet(service: Service, operation: Operation, contexts: Contexts, tasks: seq<TaskIdentity>)
    ensures BlockedAmong(service, operation, contexts, tasks)
            == Quiet(Dedup(tasks), other => ActOn(service, operation, contexts, other))
  {
    forall id
      ensures Blocked(service, operation, contexts, id) <==> ActOn(service, operation, contexts, id).call.None?
      ensures id in tasks <==> id in Dedup(tasks)
    {
      ActionDecides(service, operation, contexts, id);
      assert id in tasks <==> id in Elems(tasks);
      assert id in Dedup(tasks) <==> id in Elems(Dedup(tasks));
    }
  }

  /** The calls of a batch: the actions on the tasks that pass every check, once each, in the order given. */
  lemma ActionCalls(service: Service, operation: Operation, contexts: Contexts, tasks: seq<TaskIdentity>,
                    outcome: CommandOutcome, calls: seq<GatewayCall>)
    requires Settles(tasks, other => ActOn(service, operation, contexts, other), outcome, calls)
    ensures var acted := Without(Dedup(tasks), BlockedAmong(service, operation, contexts, tasks));
            |calls| == |acted| &&
            forall k :: 0 <= k < |acted| ==> ActsOn(operation, contexts, acted[k], calls[k])
  {
    var attempt := other => ActOn(service, operation, contexts, other);
    var acted := Without(Dedup(tasks), BlockedAmong(service, operation, contexts, tasks));
    BlockedAreQuiet(service, operation, contexts, tasks);
    DedupDistinct(tasks);
    CallsFollow(Dedup(tasks), attempt);
    forall k | 0 <= k < |acted| ensures ActsOn(operation, contexts, acted[k], calls[k]) {
      assert attempt(acted[k]).call == Some(calls[k]);
      ActionDecides(service, operation, contexts, acted[k]);
    }
  }

  // ----- Retries

  /** The source a failed task is replayed from: its address, or else a magnet link of its info hash. */
  predicate ReplaysFrom(m: TaskMetadata, source: string) {
    m.primaryUri == Some(source) ||
    (m.primaryUri == None && m.infoHash.Some? && source == "magnet:?xt=urn:btih:" + m.infoHash.value)
  }

  predicate BlocksRetry(service: Service, contexts: Contexts, id: TaskIdentity, error: ErrorCode) {
    if id.profileId != service.profileId then error == WrongProfile
    else if id !in contexts || contexts[id].0 != DownloadStatus.Error then error == Rejected
    else contexts[id].1.primaryUri == None && contexts[id].1.infoHash == None && error == Unsupported
  }

  ghost predicate RetryBlocked(service: Service, contexts: Contexts, id: TaskIdentity) {
    exists error :: BlocksRetry(service, contexts, id, error)
  }

  /** The replay of one task, to where it was saved. */
  predicate Replays(contexts: Contexts, id: TaskIdentity, call: GatewayCall) {
    && call.RetryDownload? && call.retried == id.gid && id in contexts
    && ReplaysFrom(contexts[id].1, call.source) && call.destination == contexts[id].1.directory
  }

  lemma RetryDecides(service: Service, contexts: Contexts, id: TaskIdentity)
    ensures var a := RetryOne(service, contexts, id);
            if RetryBlocked(service, contexts, id)
            then a.call == None && a.result.Failure? && BlocksRetry(service, contexts, id, a.result.error)
            else
              && a.call.Some? && Replays(contexts, id, a.call.value)
              && a.result == match service.retry(a.call.value)
                             case Success(gid) => Success(TaskIdentity(id.profileId, gid))
                             case Failure(error) => Failure(error)
  {
    var a := RetryOne(service, contexts, id);
    if a.call.None? {
      assert BlocksRetry(service, contexts, id, a.result.error);
    }
  }

  /**
   What a retry answers for one of its tasks: the error of the first check it fails; or the engine's answer to
   its replay, which is a new task of the same profile.
   */
  lemma RetryAnswers(service: Service, contexts: Contexts, tasks: seq<TaskIdentity>, outcome: CommandOutcome,
                     calls: seq<GatewayCall>, id: TaskIdentity)
    requires Settles(tasks, other => RetryOne(service, contexts, other), outcome, calls) && id in tasks
    ensures if RetryBlocked(service, contexts, id)
            then exists error :: BlocksRetry(service, contexts, id, error) &&
                                 ItemFailure(Some(id), error) in outcome.Failed()
            else
              exists call :: call in calls && Replays(contexts, id, call) &&
                match service.retry(call)
                case Success(gid) => TaskIdentity(id.profileId, gid) in outcome.Succeeded()
                case Failure(error) => ItemFailure(Some(id), error) in outcome.Failed()
  {
    RetryDecides(service, contexts, id);
    SettledEach(tasks, other => RetryOne(service, contexts, other), outcome, calls, id);
  }

  ghost function RetryBlockedAmong(service: Service, contexts: Contexts, tasks: seq<TaskIdentity>): set<TaskIdentity> {
    set id | id in tasks && RetryBlocked(service, contexts, id)
  }

  lemma RetryBlockedAreQuiet(service: Service, contexts: Contexts, tasks: seq<TaskIdentity>)
    ensures RetryBlockedAmong(service, contexts, tasks)
            == Quiet(Dedup(tasks), other => RetryOne(service, contexts, other))
  {
    forall id
      ensures RetryBlocked(service, contexts, id) <==> RetryOne(service, contexts, id).call.None?
      ensures id in tasks <==> id in Dedup(tasks)
    {
      RetryDecides(service, contexts, id);
      assert id in tasks <==> id in Elems(tasks);
      assert id in Dedup(tasks) <==> id in Elems(Dedup(tasks));
    }
  }

  /** The calls of a retry: the replays of the tasks that pass every check, once each, in the order given. */
  lemma RetryCalls(service: Service, contexts: Contexts, tasks: seq<TaskIdentity>, outcome: CommandOutcome,
                   calls: seq<GatewayCall>)
    requires Settles(tasks, other => RetryOne(service, contexts, other), outcome, calls)
    ensures var replayed := Without(Dedup(tasks), RetryBlockedAmong(service, contexts, tasks));
            |calls| == |replayed| &&
            forall k :: 0 <= k < |replayed| ==> Replays(contexts, replayed[k], calls[k])
  {
    var attempt := other => RetryOne(service, contexts, other);
    var replayed := Without(Dedup(tasks), RetryBlockedAmong(service, contexts, tasks));
    RetryBlockedAreQuiet(service, contexts, tasks);
    DedupDistinct(tasks);
    CallsFollow(Dedup(tasks), attempt);
    forall k | 0 <= k < |replayed| ensures Replays(contexts, replayed[k], calls[k]) {
      assert attempt(replayed[k]).call == Some(calls[k]);
      RetryDecides(service, contexts, replayed[k]);
    }
  }
}
