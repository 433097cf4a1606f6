/** Batch commands over selected tasks: every distinct task ends up in exactly one of two lists. */
module Batch {
  import opened Prelude
  import opened Seqs
  import opened Tasks

  datatype TaskIdentity = TaskIdentity(profileId: nat, gid: Gid)

  datatype Operation = Pause | ForcePause | Resume | MoveInQueue(movement: int) | Remove | ForceRemove
  datatype RemovalTarget = DownloadResult | LiveTask

  /** What reaches the engine. */
  datatype GatewayCall =
    | Act(operation: Operation, gid: Gid, target: Option<RemovalTarget>)
    | RetryDownload(retried: Gid, source: string, destination: Option<string>)

  datatype ErrorCode = Validation | WrongProfile | Rejected | Unsupported | Internal | Gateway(code: int)

  /** The engine answers an action with a bare success and a retry with the gid of the new task. */
  datatype Service = Service(
    profileId: nat, methods: seq<string>,
    act: GatewayCall -> Result<(), ErrorCode>, retry: GatewayCall -> Result<Gid, ErrorCode>)
  {
    /** An empty method list means the probe was unavailable. */
    predicate Allows(name: string) {
      methods == [] || name in methods
    }
  }

  datatype ItemFailure = ItemFailure(item: Option<TaskIdentity>, error: ErrorCode)

  datatype CommandOutcome =
    | FullSuccess(succeeded: seq<TaskIdentity>)
    | PartialSuccess(partial: seq<TaskIdentity>, partialFailed: seq<ItemFailure>)
    | FullFailure(failed: seq<ItemFailure>)
  {
    function Succeeded(): seq<TaskIdentity> {
      match this
      case FullSuccess(s) => s
      case PartialSuccess(s, _) => s
      case FullFailure(_) => []
    }

    function Failed(): seq<ItemFailure> {
      match this
      case FullSuccess(_) => []
      case PartialSuccess(_, f) => f
      case FullFailure(f) => f
    }
  }

  type Contexts = map<TaskIdentity, (DownloadStatus, TaskMetadata)>

  // ----- One identity

  predicate Allowed(operation: Operation, status: DownloadStatus) {
    match operation
    case Pause => status in {Active, Seeding, Waiting, Verifying}
    case ForcePause => status in {Active, Seeding, Waiting, Verifying}
    case Resume => status == Paused
    case MoveInQueue(_) => status !in {Complete, DownloadStatus.Error, Removed, Unknown}
    case Remove => status != Unknown
    case ForceRemove => status != Unknown
  }

  function RequiredMethod(operation: Operation): string {
    match operation
    case Pause => "aria2.pause"
    case ForcePause => "aria2.forcePause"
    case Resume => "aria2.unpause"
    case MoveInQueue(_) => "aria2.changePosition"
    case Remove => "aria2.remove"
    case ForceRemove => "aria2.forceRemove"
  }

  function CallFor(operation: Operation, gid: Gid, status: DownloadStatus): GatewayCall {
    Act(operation, gid,
        if !operation.Remove? && !operation.ForceRemove? then None
        else if status.IsTerminal() then Some(DownloadResult) else Some(LiveTask))
  }

  /** How one identity fares: the call it causes, if any, and its result. */
  datatype Attempt = Attempt(call: Option<GatewayCall>, result: Result<TaskIdentity, ErrorCode>)

  function Refused(error: ErrorCode): Attempt {
    Attempt(None, Failure(error))
  }

  function ActOn(service: Service, operation: Operation, contexts: Contexts, id: TaskIdentity): Attempt {
    if id.profileId != service.profileId then Refused(WrongProfile)
    else if id !in contexts then Refused(Rejected)
    else if !Allowed(operation, contexts[id].0) then Refused(Rejected)
    else if !service.Allows(RequiredMethod(operation)) then Refused(Unsupported)
    else
      var call := CallFor(operation, id.gid, contexts[id].0);
      match service.act(call)
      case Success(_) => Attempt(Some(call), Success(id))
      case Failure(error) => Attempt(Some(call), Failure(error))
  }

  function ReplaySource(m: TaskMetadata): Option<string> {
    if m.primaryUri.Some? then m.primaryUri
    else if m.infoHash.Some? then Some("magnet:?xt=urn:btih:" + m.infoHash.value)
    else None
  }

  function RetryOne(service: Service, contexts: Contexts, id: TaskIdentity): Attempt {
    if id.profileId != service.profileId then Refused(WrongProfile)
    else if id !in contexts then Refused(Rejected)
    else if contexts[id].0 != DownloadStatus.Error then Refused(Rejected)
    else
      var metadata := contexts[id].1;
      match ReplaySource(metadata)
      case None => Refused(Unsupported)
      case Some(source) =>
        var call := RetryDownload(id.gid, source, metadata.directory);
        match service.retry(call)
        case Success(gid) =>
          Attempt(Some(call), Success(TaskIdentity(service.profileId, gid)))
        case Failure(error) => Attempt(Some(call), Failure(error))
  }

  // ----- A list of distinct identities

  function Successes(ids: seq<TaskIdentity>, attempt: TaskIdentity -> Attempt): seq<TaskIdentity> {
    if ids == [] then []
    else
      var rest, last := Successes(ids[..|ids| - 1], attempt), attempt(ids[|ids| - 1]).result;
      if last.Success? then rest + [last.value] else rest
  }

  function Failures(ids: seq<TaskIdentity>, attempt: TaskIdentity -> Attempt): seq<ItemFailure> {
    if ids == [] then []
    else
      var rest, last := Failures(ids[..|ids| - 1], attempt), attempt(ids[|ids| - 1]).result;
      if last.Failure? then rest + [ItemFailure(Some(ids[|ids| - 1]), last.error)] else rest
  }

  function Calls(ids: seq<TaskIdentity>, attempt: TaskIdentity -> Attempt): seq<GatewayCall> {
    if ids == [] then []
    else
      var rest, last := Calls(ids[..|ids| - 1], attempt), attempt(ids[|ids| - 1]).call;
      if last.Some? then rest + [last.value] else rest
  }

  function FinishBatch(succeeded: seq<TaskIdentity>, failed: seq<ItemFailure>): CommandOutcome {
    if succeeded != [] && failed == [] then FullSuccess(succeeded)
    else if succeeded != [] then PartialSuccess(succeeded, failed)
    else if failed != [] then FullFailure(failed)
    else FullFailure([ItemFailure(None, Internal)])
  }

  /** The outcome and the calls of a batch, as a whole. */
  ghost predicate Settles(tasks: seq<TaskIdentity>, attempt: TaskIdentity -> Attempt,
                          outcome: CommandOutcome, calls: seq<GatewayCall>) {
    if tasks == [] then outcome == FullFailure([ItemFailure(None, Validation)]) && calls == []
    else
      && outcome == FinishBatch(Successes(Dedup(tasks), attempt), Failures(Dedup(tasks), attempt))
      && calls == Calls(Dedup(tasks), attempt)
  }

  // ----- The loops

  lemma BatchTurn(tasks: seq<TaskIdentity>, k: nat, attempt: TaskIdentity -> Attempt)
    requires k < |tasks|
    ensures Elems(tasks[..k + 1]) == Elems(tasks[..k]) + {tasks[k]}
    ensures var (before, after, a) := (Dedup(tasks[..k]), Dedup(tasks[..k + 1]), attempt(tasks[k]));
            if tasks[k] in Elems(tasks[..k]) then after == before
            else
              && Successes(after, attempt)
                 == Successes(before, attempt) + (if a.result.Success? then [a.result.value] else [])
              && Failures(after, attempt)
                 == Failures(before, attempt)
                    + (if a.result.Failure? then [ItemFailure(Some(tasks[k]), a.result.error)] else [])
              && Calls(after, attempt) == Calls(before, attempt) + (if a.call.Some? then [a.call.value] else [])
  {
    assert tasks[..k + 1] == tasks[..k] + [tasks[k]];
    DedupSnoc(tasks[..k], tasks[k]);
    ElemsConcat(tasks[..k], [tasks[k]]);
    var d := Dedup(tasks[..k]);
    assert (d + [tasks[k]])[..|d|] == d;
  }

  method ExecuteBatch(service: Service, tasks: seq<TaskIdentity>, operation: Operation, contexts: Contexts)
    returns (outcome: CommandOutcome, calls: seq<GatewayCall>)
    ensures Settles(tasks, id => ActOn(service, operation, contexts, id), outcome, calls)
  {
    if tasks == [] {
      return FullFailure([ItemFailure(None, Validation)]), [];
    }
    var attempt := id => ActOn(service, operation, contexts, id);
    var seen: set<TaskIdentity> := {};
    var succeeded: seq<TaskIdentity>, failed: seq<ItemFailure> := [], [];
    calls := [];
    for k := 0 to |tasks|
      invariant seen == Elems(tasks[..k])
      invariant succeeded == Successes(Dedup(tasks[..k]), attempt)
      invariant failed == Failures(Dedup(tasks[..k]), attempt)
      invariant calls == Calls(Dedup(tasks[..k]), attempt)
    {
      var id := tasks[k];
      BatchTurn(tasks, k, attempt);
      if id in seen {
        continue;
      }
      seen := seen + {id};
      if id.profileId != service.profileId {
        failed := failed + [ItemFailure(Some(id), WrongProfile)];
        continue;
      }
      if id !in contexts {
        failed := failed + [ItemFailure(Some(id), Rejected)];
        continue;
      }
      var status := contexts[id].0;
      if !Allowed(operation, status) {
        failed := failed + [ItemFailure(Some(id), Rejected)];
        continue;
      }
      if !service.Allows(RequiredMethod(operation)) {
        failed := failed + [ItemFailure(Some(id), Unsupported)];
        continue;
      }
      var call := CallFor(operation, id.gid, status);
      calls := calls + [call];
      match service.act(call) {
        case Success(_) => succeeded := succeeded + [id];
        case Failure(error) => failed := failed + [ItemFailure(Some(id), error)];
      }
    }
    assert tasks[..|tasks|] == tasks;
    outcome := FinishBatch(succeeded, failed);
  }

  method RetryTasks(service: Service, tasks: seq<TaskIdentity>, contexts: Contexts)
    returns (outcome: CommandOutcome, calls: seq<GatewayCall>)
    ensures Settles(tasks, id => RetryOne(service, contexts, id), outcome, calls)
  {
    if tasks == [] {
      return FullFailure([ItemFailure(None, Validation)]), [];
    }
    var attempt := id => RetryOne(service, contexts, id);
    var seen: set<TaskIdentity> := {};
    var succeeded: seq<TaskIdentity>, failed: seq<ItemFailure> := [], [];
    calls := [];
    for k := 0 to |tasks|
      invariant seen == Elems(tasks[..k])
      invariant succeeded == Successes(Dedup(tasks[..k]), attempt)
      invariant failed == Failures(Dedup(tasks[..k]), attempt)
      invariant calls == Calls(Dedup(tasks[..k]), attempt)
    {
      var id := tasks[k];
      BatchTurn(tasks, k, attempt);
      if id in seen {
        continue;
      }
      seen := seen + {id};
      if id.profileId != service.profileId {
        failed := failed + [ItemFailure(Some(id), WrongProfile)];
        continue;
      }
      if id !in contexts || contexts[id].0 != DownloadStatus.Error {
        failed := failed + [ItemFailure(Some(id), Rejected)];
        continue;
      }
      var metadata := contexts[id].1;
      var source := ReplaySource(metadata);
      if source.None? {
        failed := failed + [ItemFailure(Some(id), Unsupported)];
        continue;
      }
      var call := RetryDownload(id.gid, source.value, metadata.directory);
      calls := calls + [call];
      match service.retry(call) {
        case Success(gid) => succeeded := succeeded + [TaskIdentity(service.profileId, gid)];
        case Failure(error) => failed := failed + [ItemFailure(Some(id), error)];
      }
    }
    assert tasks[..|tasks|] == tasks;
    outcome := FinishBatch(succeeded, failed);
  }

  // ----- Conservation

  lemma {:induction false} CountLaw(ids: seq<TaskIdentity>, attempt: TaskIdentity -> Attempt)
    ensures |Successes(ids, attempt)| + |Failures(ids, attempt)| == |ids|
    ensures |Calls(ids, attempt)| <= |ids|
  {
    if ids != [] {
      CountLaw(ids[..|ids| - 1], attempt);
    }
  }

  lemma {:induction false} FailuresName(ids: seq<TaskIdentity>, attempt: TaskIdentity -> Attempt)
    ensures forall f :: f in Failures(ids, attempt) ==>
              f.item.Some? && f.item.value in ids && attempt(f.item.value).result == Failure(f.error)
  {
    if ids != [] {
      FailuresName(ids[..|ids| - 1], attempt);
    }
  }

  /** For non-empty input nothing is lost, nothing is invented, and "no result" never happens. */
  lemma OutcomeConservesCount(tasks: seq<TaskIdentity>, attempt: TaskIdentity -> Attempt,
                              outcome: CommandOutcome, calls: seq<GatewayCall>)
    requires tasks != [] && Settles(tasks, attempt, outcome, calls)
    ensures |outcome.Succeeded()| + |outcome.Failed()| == |Dedup(tasks)| >= 1
    ensures |calls| <= |Dedup(tasks)|
    ensures ItemFailure(None, Internal) !in outcome.Failed()
  {
    CountLaw(Dedup(tasks), attempt);
    assert tasks[0] in Elems(tasks);
    NoElems(Dedup(tasks));
    NoElems(tasks);
    FailuresName(Dedup(tasks), attempt);
  }

  function Items(failed: seq<ItemFailure>): set<TaskIdentity> {
    set f | f in failed && f.item.Some? :: f.item.value
  }

  /** An action batch: each distinct identity succeeds or fails, never both, in first-occurrence order. */
  lemma {:induction false} ActionsPartition(service: Service, operation: Operation, contexts: Contexts,
                                            ids: seq<TaskIdentity>)
    requires Distinct(ids)
    ensures var attempt := id => ActOn(service, operation, contexts, id);
            var (good, bad) := (Successes(ids, attempt), Failures(ids, attempt));
            && Elems(good) + Items(bad) == Elems(ids) && Elems(good) !! Items(bad)
            && good == Without(ids, Items(bad))
  {
    var attempt := id => ActOn(service, operation, contexts, id);
    if ids != [] {
      var init, last := ids[..|ids| - 1], ids[|ids| - 1];
      ActionsPartition(service, operation, contexts, init);
      var (good, bad) := (Successes(init, attempt), Failures(init, attempt));
      assert Elems(ids) == Elems(init) + {last} && last !in Elems(init);
      if attempt(last).result.Success? {
        ElemsConcat(good, [last]);
      } else {
        var failure := ItemFailure(Some(last), attempt(last).result.error);
        assert Items(bad + [failure]) == Items(bad) + {last};
        WithoutSame(init, Items(bad), Items(bad) + {last});
      }
    }
  }

  /** The outcome of an action batch splits the given identities into the succeeded and the failed ones, in order. */
  lemma OutcomePartitions(service: Service, operation: Operation, contexts: Contexts, tasks: seq<TaskIdentity>,
                          outcome: CommandOutcome, calls: seq<GatewayCall>)
    requires tasks != [] && Settles(tasks, id => ActOn(service, operation, contexts, id), outcome, calls)
    ensures Elems(outcome.Succeeded()) + Items(outcome.Failed()) == Elems(tasks)
    ensures Elems(outcome.Succeeded()) !! Items(outcome.Failed())
    ensures outcome.Succeeded() == Without(Dedup(tasks), Items(outcome.Failed()))
  {
    var attempt := id => ActOn(service, operation, contexts, id);
    DedupDistinct(tasks);
    ActionsPartition(service, operation, contexts, Dedup(tasks));
    CountLaw(Dedup(tasks), attempt);
    assert tasks[0] in Elems(tasks);
    NoElems(Dedup(tasks));
    assert Items([]) == {};
  }

  /** A new identity of the same profile has a new gid, so its call is new too. */
  lemma {:induction false} FreshCall(service: Service, operation: Operation, contexts: Contexts, ids: seq<TaskIdentity>,
                                     id: TaskIdentity)
    requires id !in ids && ActOn(service, operation, contexts, id).call.Some?
    ensures var attempt := other => ActOn(service, operation, contexts, other);
            attempt(id).call.value !in Calls(ids, attempt)
  {
    if ids != [] {
      FreshCall(service, operation, contexts, ids[..|ids| - 1], id);
      assert ids[|ids| - 1] in ids;
    }
  }

  /** Every call was made for a task that passed the profile, presence, status and capability checks. */
  lemma {:induction false} CallsAreAllowed(service: Service, operation: Operation, contexts: Contexts,
                                           ids: seq<TaskIdentity>, c: GatewayCall)
    requires Distinct(ids)
    ensures var attempt := id => ActOn(service, operation, contexts, id);
            c in Calls(ids, attempt) ==>
              exists id :: id in ids && id.profileId == service.profileId && id in contexts &&
                           Allowed(operation, contexts[id].0) && service.Allows(RequiredMethod(operation)) &&
                           c == CallFor(operation, id.gid, contexts[id].0)
    ensures var attempt := id => ActOn(service, operation, contexts, id);
            Distinct(Calls(ids, attempt))
  {
    var attempt := id => ActOn(service, operation, contexts, id);
    if ids != [] {
      var init, last := ids[..|ids| - 1], ids[|ids| - 1];
      CallsAreAllowed(service, operation, contexts, init, c);
      if attempt(last).call.Some? {
        assert last in ids;
        FreshCall(service, operation, contexts, init, last);
      }
    }
  }

  function FailedAmong(ids: seq<TaskIdentity>, attempt: TaskIdentity -> Attempt): set<TaskIdentity> {
    set id | id in ids && attempt(id).result.Failure?
  }

  /**
   Any batch: the failures name exactly the identities that failed, and the successes answer the others one
   by one, in first-occurrence order.
   */
  lemma {:induction false} AttemptsPartition(ids: seq<TaskIdentity>, attempt: TaskIdentity -> Attempt)
    requires Distinct(ids)
    ensures var (good, bad) := (Successes(ids, attempt), Failures(ids, attempt));
            var answered := Without(ids, Items(bad));
            && Items(bad) == FailedAmong(ids, attempt)
            && |good| == |answered|
            && forall k :: 0 <= k < |good| ==> attempt(answered[k]).result == Success(good[k])
  {
    if ids != [] {
      var init, last := ids[..|ids| - 1], ids[|ids| - 1];
      AttemptsPartition(init, attempt);
      var bad := Failures(init, attempt);
      assert ids == init + [last] && last !in Elems(init);
      assert Items(bad) <= Elems(init);
      WithoutSnoc(init, last, Items(Failures(ids, attempt)));
      if attempt(last).result.Failure? {
        var failure := ItemFailure(Some(last), attempt(last).result.error);
        assert Items(bad + [failure]) == Items(bad) + {last};
        WithoutSame(init, Items(bad), Items(bad) + {last});
      }
    }
  }

  lemma {:induction false} FreshRetry(service: Service, contexts: Contexts, ids: seq<TaskIdentity>, id: TaskIdentity)
    requires id !in ids && RetryOne(service, contexts, id).call.Some?
    ensures RetryOne(service, contexts, id).call.value !in Calls(ids, other => RetryOne(service, contexts, other))
  {
    if ids != [] {
      FreshRetry(service, contexts, ids[..|ids| - 1], id);
      assert ids[|ids| - 1] in ids;
    }
  }

  /** Every retry replays a failed task of this profile from a source it knows, each task at most once. */
  lemma {:induction false} RetriesAreReplays(service: Service, contexts: Contexts, ids: seq<TaskIdentity>,
                                             c: GatewayCall)
    requires Distinct(ids)
    ensures var attempt := id => RetryOne(service, contexts, id);
            c in Calls(ids, attempt) ==>
              exists id :: id in ids && id.profileId == service.profileId && id in contexts &&
                           contexts[id].0 == DownloadStatus.Error && ReplaySource(contexts[id].1).Some? &&
                           c == RetryDownload(id.gid, ReplaySource(contexts[id].1).value, contexts[id].1.directory)
    ensures var attempt := id => RetryOne(service, contexts, id);
            Distinct(Calls(ids, attempt))
  {
    var attempt := id => RetryOne(service, contexts, id);
    if ids != [] {
      var init, last := ids[..|ids| - 1], ids[|ids| - 1];
      RetriesAreReplays(service, contexts, init, c);
      if attempt(last).call.Some? {
        assert last in ids;
        FreshRetry(service, contexts, init, last);
      }
    }
  }
}
