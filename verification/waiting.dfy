/** Completing the waiting queue: aria2 serves it in pages of at most a thousand tasks. */
module WaitingPages {
  import opened Prelude

  const PAGE_SIZE: U32 := 1_000

  /** `aria2.tellWaiting(offset, count)`. */
  datatype Call = Call(offset: U32, count: U32)

  datatype RpcError = InvalidData | Remote(code: int)

  /** The engine's answer to each call of a batch, or the failure of the whole batch. */
  datatype Batch<T> = Batch(failure: Option<RpcError>, answer: Call -> Result<seq<T>, RpcError>)

  /** The extra calls, as the list that starts at `offset`. */
  function Calls(offset: U32, total: U32): seq<Call>
    decreases SatSub(total, offset)
  {
    if offset >= total then []
    else
      var count := Min(total - offset, PAGE_SIZE);
      [Call(offset, count)] + Calls(offset + count, total)
  }

  /** The answers in call order, or the first error among them. */
  function Collect<T>(calls: seq<Call>, answer: Call -> Result<seq<T>, RpcError>): Result<seq<T>, RpcError> {
    if calls == [] then Success([])
    else
      match answer(calls[0])
      case Failure(error) => Failure(error)
      case Success(page) =>
        match Collect(calls[1..], answer)
        case Failure(error) => Failure(error)
        case Success(rest) => Success(page + rest)
  }

  function Completed<T>(waiting: seq<T>, total: U32, batch: Batch<T>): Result<seq<T>, RpcError> {
    if |waiting| > U32_MAX then Failure(InvalidData)
    else if |waiting| >= total then Success(waiting)
    else if batch.failure.Some? then Failure(batch.failure.value)
    else
      match Collect(Calls(|waiting|, total), batch.answer)
      case Failure(error) => Failure(error)
      case Success(rest) => Success(waiting + rest)
  }

  lemma CallsStep(made: seq<Call>, offset: U32, total: U32)
    requires offset < total
    ensures var count := Min(total - offset, PAGE_SIZE);
            && Calls(offset, total) == [Call(offset, count)] + Calls(offset + count, total)
            && made + [Call(offset, count)] + Calls(offset + count, total) == made + Calls(offset, total)
  {
  }

  function CompletesWith<T>(waiting: seq<T>, calls: seq<Call>,
                            answer: Call -> Result<seq<T>, RpcError>): Result<seq<T>, RpcError> {
    match Collect(calls, answer)
    case Failure(error) => Failure(error)
    case Success(rest) => Success(waiting + rest)
  }

  lemma CollectTurn<T>(waiting: seq<T>, calls: seq<Call>, answer: Call -> Result<seq<T>, RpcError>)
    requires calls != [] && answer(calls[0]).Success?
    ensures CompletesWith(waiting, calls, answer) == CompletesWith(waiting + answer(calls[0]).value, calls[1..], answer)
  {
    if Collect(calls[1..], answer).Success? {
      var rest := Collect(calls[1..], answer).value;
      assert waiting + (answer(calls[0]).value + rest) == waiting + answer(calls[0]).value + rest;
    }
  }

  method CompleteWaitingSnapshot<T>(first: seq<T>, expectedTotal: U32, batch: Batch<T>)
    returns (r: Result<seq<T>, RpcError>)
    ensures r == Completed(first, expectedTotal, batch)
  {
    if |first| > U32_MAX {
      return Failure(InvalidData);
    }
    var loaded: U32 := |first|;
    if loaded >= expectedTotal {
      return Success(first);
    }
    var offset := loaded;
    var calls: seq<Call> := [];
    while offset < expectedTotal
      invariant loaded <= offset <= expectedTotal
      invariant calls + Calls(offset, expectedTotal) == Calls(loaded, expectedTotal)
    {
      var count := Min(SatSub(expectedTotal, offset), PAGE_SIZE);
      CallsStep(calls, offset, expectedTotal);
      calls := calls + [Call(offset, count)];
      offset := Min(offset + count, U32_MAX);
    }
    if batch.failure.Some? {
      return Failure(batch.failure.value);
    }
    assert calls + [] == calls;
    var waiting := first;
    for k := 0 to |calls|
      invariant CompletesWith(waiting, calls[k..], batch.answer) == CompletesWith(first, calls, batch.answer)
    {
      assert calls[k..][0] == calls[k] && calls[k..][1..] == calls[k + 1..];
      match batch.answer(calls[k]) {
        case Failure(error) =>
          assert CompletesWith(waiting, calls[k..], batch.answer) == Failure(error);
          assert Completed(first, expectedTotal, batch) == CompletesWith(first, calls, batch.answer);
          return Failure(error);
        case Success(page) =>
          CollectTurn(waiting, calls[k..], batch.answer);
          waiting := waiting + page;
      }
    }
    assert calls[|calls|..] == [] && waiting + [] == waiting;
    r := Success(waiting);
  }

  /** Consecutive calls covering `offset` to `total` without gap or overlap, in pages of 1 to 1000. */
  ghost predicate Tile(calls: seq<Call>, offset: int, total: int) {
    && calls != [] && calls[0].offset == offset
    && (forall i :: 0 <= i < |calls| ==> 1 <= calls[i].count <= 1000)
    && (forall i :: 0 <= i < |calls| - 1 ==> calls[i].offset + calls[i].count == calls[i + 1].offset)
    && calls[|calls| - 1].offset + calls[|calls| - 1].count == total
  }

  lemma TileCons(c: Call, calls: seq<Call>, total: int)
    requires 1 <= c.count <= 1000 && Tile(calls, c.offset + c.count, total)
    ensures Tile([c] + calls, c.offset, total)
  {
    var all := [c] + calls;
    forall i | 0 <= i < |all| - 1 ensures all[i].offset + all[i].count == all[i + 1].offset {
      if i > 0 {
        assert all[i] == calls[i - 1] && all[i + 1] == calls[i];
      }
    }
  }

  lemma TileOne(c: Call, total: int)
    requires 1 <= c.count <= 1000 && c.offset + c.count == total
    ensures Tile([c], c.offset, total)
  {
  }

  /** The calls cover the missing range end to end. */
  lemma {:induction false} CallsTile(offset: U32, total: U32)
    requires offset < total
    ensures Tile(Calls(offset, total), offset, total)
    decreases total - offset
  {
    var c := Call(offset, Min(total - offset, PAGE_SIZE));
    CallsStep([], offset, total);
    if c.offset + c.count < total {
      CallsTile(c.offset + c.count, total);
      TileCons(c, Calls(c.offset + c.count, total), total);
    } else {
      TileOne(c, total);
      assert [c] + [] == [c];
    }
  }

  /** All calls but the last ask for a whole page of 1000. */
  lemma {:induction false} CallsAreFull(offset: U32, total: U32, k: nat)
    requires offset < total && k + 1 < |Calls(offset, total)|
    ensures Calls(offset, total)[k].count == 1000
    decreases k
  {
    var count := Min(total - offset, PAGE_SIZE);
    var rest := Calls(offset + count, total);
    CallsStep([], offset, total);
    assert rest != [] && Calls(offset, total)[1..] == rest;
    if k > 0 {
      CallsAreFull(offset + count, total, k - 1);
    }
  }

  /** The engine serves slices of one queue that does not change during the batch. */
  ghost predicate Serves<T>(queue: seq<T>, batch: Batch<T>) {
    batch.failure.None? &&
    forall c: Call :: c.offset + c.count <= |queue| ==> batch.answer(c) == Success(queue[c.offset..c.offset + c.count])
  }

  lemma CollectCons<T>(c: Call, rest: seq<Call>, answer: Call -> Result<seq<T>, RpcError>)
    requires answer(c).Success? && Collect(rest, answer).Success?
    ensures Collect([c] + rest, answer) == Success(answer(c).value + Collect(rest, answer).value)
  {
    assert ([c] + rest)[1..] == rest;
  }

  lemma ServedSlice<T>(queue: seq<T>, batch: Batch<T>, offset: U32, count: U32)
    requires Serves(queue, batch) && offset + count <= |queue|
    ensures batch.answer(Call(offset, count)) == Success(queue[offset..offset + count])
    ensures queue[offset..offset + count] + queue[offset + count..] == queue[offset..]
  {
    var c := Call(offset, count);
    assert c.offset + c.count <= |queue|;
  }

  lemma {:induction false} CollectServes<T>(queue: seq<T>, batch: Batch<T>, offset: U32)
    requires Serves(queue, batch) && offset <= |queue| <= U32_MAX
    ensures Collect(Calls(offset, |queue|), batch.answer) == Success(queue[offset..])
    decreases |queue| - offset
  {
    if offset < |queue| {
      var count := Min(|queue| - offset, PAGE_SIZE);
      CollectServes(queue, batch, offset + count);
      ServedSlice(queue, batch, offset, count);
      CollectCons(Call(offset, count), Calls(offset + count, |queue|), batch.answer);
    } else {
      assert queue[offset..] == [];
    }
  }

  /** Whatever prefix the first page held, completing it yields the whole queue in order. */
  lemma CompletesTheQueue<T>(queue: seq<T>, batch: Batch<T>, n: nat)
    requires Serves(queue, batch) && n <= |queue| <= U32_MAX
    ensures Completed(queue[..n], |queue|, batch) == Success(queue)
  {
    if n < |queue| {
      CollectServes(queue, batch, n);
      assert queue[..n] + queue[n..] == queue;
    } else {
      assert queue[..n] == queue;
    }
  }

  // ----- Failures

  ghost predicate FirstFailing<T>(calls: seq<Call>, answer: Call -> Result<seq<T>, RpcError>, k: int) {
    0 <= k < |calls| && answer(calls[k]).Failure? && forall i :: 0 <= i < k ==> answer(calls[i]).Success?
  }

  lemma {:induction false} CollectFailsIff<T>(calls: seq<Call>, answer: Call -> Result<seq<T>, RpcError>)
    ensures Collect(calls, answer).Success? <==> forall i :: 0 <= i < |calls| ==> answer(calls[i]).Success?
    ensures Collect(calls, answer).Failure? ==>
              exists k :: FirstFailing(calls, answer, k) && Collect(calls, answer).error == answer(calls[k]).error
  {
    if calls != [] {
      var rest := calls[1..];
      CollectFailsIff(rest, answer);
      assert forall i :: 0 <= i < |rest| ==> rest[i] == calls[i + 1];
      if answer(calls[0]).Failure? {
        assert FirstFailing(calls, answer, 0);
      } else if Collect(rest, answer).Failure? {
        var k :| FirstFailing(rest, answer, k) && Collect(rest, answer).error == answer(rest[k]).error;
        assert calls[k + 1] == rest[k];
        forall i | 0 <= i < k + 1 ensures answer(calls[i]).Success? {
          if i > 0 {
            assert calls[i] == rest[i - 1];
          }
        }
        assert FirstFailing(calls, answer, k + 1);
      } else {
        forall i | 0 <= i < |calls| ensures answer(calls[i]).Success? {
          if i > 0 {
            assert calls[i] == rest[i - 1];
          }
        }
      }
    }
  }

  /**
   How a completion can end: a list that no count can name is invalid, a list that is long enough is the answer,
   and otherwise the batch fails as a whole, or with the first call of it that fails, or not at all.
   */
  lemma CompletedCases<T>(waiting: seq<T>, total: U32, batch: Batch<T>)
    ensures var r := Completed(waiting, total, batch);
            var calls := if |waiting| < total then Calls(|waiting|, total) else [];
            if |waiting| > 4_294_967_295 then r == Failure(InvalidData)
            else if |waiting| >= total then r == Success(waiting)
            else if batch.failure.Some? then r == Failure(batch.failure.value)
            else if r.Success? then
              waiting <= r.value && forall i :: 0 <= i < |calls| ==> batch.answer(calls[i]).Success?
            else exists k :: FirstFailing(calls, batch.answer, k) && r.error == batch.answer(calls[k]).error
  {
    if |waiting| < total {
      CollectFailsIff(Calls(|waiting|, total), batch.answer);
    }
  }

  /** A completion that succeeds holds the first list and, behind it, the answers in call order. */
  lemma {:induction false} CollectConcatenates<T>(calls: seq<Call>, answer: Call -> Result<seq<T>, RpcError>, k: nat)
    requires Collect(calls, answer).Success? && k < |calls|
    ensures answer(calls[k]).Success? && Collect(calls[..k], answer).Success? &&
            Collect(calls[k + 1..], answer).Success?
    ensures Collect(calls, answer).value
            == Collect(calls[..k], answer).value + answer(calls[k]).value + Collect(calls[k + 1..], answer).value
  {
    if k > 0 {
      CollectConcatenates(calls[1..], answer, k - 1);
      assert calls[1..][..k - 1] == calls[..k][1..] && calls[1..][k..] == calls[k + 1..];
      assert calls[..k][0] == calls[0];
    }
  }
}
