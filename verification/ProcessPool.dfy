/**
 The code of the pool as its threads run it, each call on its own: Submit, the loop of a worker
 process, the loop of a reader, FailAllPending and Shutdown. Other threads are not running meanwhile;
 what interleaving adds is the subject of PoolMachine. `io` parameters script what the successive
 calls of read and write return.
 */
module ProcessPool {
  import opened Bytes
  import opened Options
  import opened PoolFraming
  import opened PoolTasks
  import PoolMachine
  import PoolSafety

  type Executor = PoolMachine.Executor
  type Script = seq<PoolFraming.Call>

  // ---------- What the two loops compute ----------

  predicate HeaderSize(frames: seq<Frame>, n: nat) {
    forall i :: 0 <= i < |frames| ==> |frames[i].header| == n
  }

  /** A worker's answers to its requests, up to the first Stop. */
  function Answers(run: Executor, requests: seq<Frame>): (answers: seq<Frame>)
    requires HeaderSize(requests, 32)
    ensures |answers| <= |requests|
  {
    if requests == [] || CommandOf(requests[0]) == STOP then []
    else
      var f := requests[0];
      assert HeaderSize(requests[1..], 32);
      [Answer(TaskIdOf(f), run(ExecutorOf(f), f.body))] + Answers(run, requests[1..])
  }

  /** Which future each handler completes, and the futures. */
  datatype Handlers = Handlers(pending: map<nat, nat>, futures: seq<Future>)

  ghost predicate HandlersOk(sizes: seq<Option<nat>>, h: Handlers) {
    |sizes| == |h.futures| && forall id :: id in h.pending ==> h.pending[id] < |h.futures|
  }

  /** One response: its handler, if there still is one, is taken out and completes its future. */
  ghost function Settle(sizes: seq<Option<nat>>, h: Handlers, f: Frame): (h': Handlers)
    requires HandlersOk(sizes, h) && |f.header| == 24
    ensures HandlersOk(sizes, h')
  {
    var id := ResultIdOf(f);
    if id !in h.pending then h
    else Handlers(h.pending - {id}, h.futures[h.pending[id] := Complete(sizes[h.pending[id]], f)])
  }

  ghost function SettleAll(sizes: seq<Option<nat>>, h: Handlers, responses: seq<Frame>): (h': Handlers)
    requires HandlersOk(sizes, h) && HeaderSize(responses, 24)
    ensures HandlersOk(sizes, h')
    decreases |responses|
  {
    if responses == [] then h
    else
      assert HeaderSize(responses[1..], 24);
      SettleAll(sizes, Settle(sizes, h, responses[0]), responses[1..])
  }

  function RequestFrames(tasks: seq<Task>, ids: seq<nat>): (frames: seq<Frame>)
    requires |tasks| == |ids|
    ensures |frames| == |tasks|
  {
    seq(|tasks|, i requires 0 <= i < |tasks| => PoolMachine.RequestFrame(ids[i], tasks[i]))
  }

  ghost predicate Registered(sizes: seq<Option<nat>>, h: Handlers, tasks: seq<Task>, ids: seq<nat>) {
    && HandlersOk(sizes, h) && |tasks| == |ids|
    && (forall i :: 0 <= i < |ids| ==>
          && ids[i] in h.pending && sizes[h.pending[ids[i]]] == tasks[i].resultSize
          && ids[i] < WORD64 && tasks[i].executor < WORD64 && |tasks[i].payload| < WORD64)
    && (forall i, j :: 0 <= i < j < |ids| ==> ids[i] != ids[j])
    && (forall a, b :: a in h.pending && b in h.pending && a != b ==> h.pending[a] != h.pending[b])
  }

  function TaskResult(run: Executor, t: Task): Future {
    Delivery(t.resultSize, run(t.executor, t.payload))
  }

  /** Exactly these tasks' handlers are used up. */
  ghost predicate UsedUp(h: Handlers, ids: seq<nat>, h': Handlers) {
    && (forall id :: id in h'.pending <==> id in h.pending && id !in ids)
    && (forall id :: id in h'.pending ==> h'.pending[id] == h.pending[id])
  }

  /** The futures of these tasks hold their results, and no other future has changed. */
  ghost predicate Delivered(run: Executor, h: Handlers, tasks: seq<Task>, ids: seq<nat>, h': Handlers)
    requires |tasks| == |ids|
  {
    && |h'.futures| == |h.futures|
    && (forall i :: 0 <= i < |ids| ==>
          ids[i] in h.pending && h.pending[ids[i]] < |h.futures| && h'.futures[h.pending[ids[i]]] == TaskResult(run, tasks[i]))
    && (forall ref :: 0 <= ref < |h.futures| && (forall i :: 0 <= i < |ids| ==> ids[i] in h.pending && h.pending[ids[i]] != ref) ==>
          h'.futures[ref] == h.futures[ref])
  }

  lemma FirstUsedUp(h: Handlers, ids: seq<nat>, h1: Handlers, h': Handlers)
    requires ids != [] && h1.pending == h.pending - {ids[0]} && UsedUp(h1, ids[1..], h')
    ensures UsedUp(h, ids, h')
  {
    assert ids == [ids[0]] + ids[1..];
  }

  lemma FirstDelivered(run: Executor, sizes: seq<Option<nat>>, h: Handlers, tasks: seq<Task>, ids: seq<nat>, h1: Handlers, h': Handlers)
    requires Registered(sizes, h, tasks, ids) && tasks != []
    requires h1 == Handlers(h.pending - {ids[0]}, h.futures[h.pending[ids[0]] := TaskResult(run, tasks[0])])
    requires Delivered(run, h1, tasks[1..], ids[1..], h')
    ensures Delivered(run, h, tasks, ids, h')
  {
    hide TaskResult;
    var first := h.pending[ids[0]];
    forall i | 1 <= i < |ids|
      ensures h1.pending[ids[i]] == h.pending[ids[i]] != first && h'.futures[h.pending[ids[i]]] == TaskResult(run, tasks[i])
    {
      assert ids[1..][i - 1] == ids[i] && tasks[1..][i - 1] == tasks[i];
    }
    forall ref | 0 <= ref < |h.futures| && (forall i :: 1 <= i < |ids| ==> h.pending[ids[i]] != ref)
      ensures h'.futures[ref] == h1.futures[ref]
    {
      forall j | 0 <= j < |ids[1..]| ensures ids[1..][j] in h1.pending && h1.pending[ids[1..][j]] != ref {
        assert ids[1..][j] == ids[j + 1];
      }
    }
  }

  /** The answer to the first request settles its future; the rest stay registered. */
  lemma FirstSettled(run: Executor, sizes: seq<Option<nat>>, h: Handlers, tasks: seq<Task>, ids: seq<nat>)
    requires Registered(sizes, h, tasks, ids) && tasks != [] && PoolSafety.GoodExecutor(run)
    ensures var answer := Answer(ids[0], run(tasks[0].executor, tasks[0].payload));
            var h1 := Handlers(h.pending - {ids[0]}, h.futures[h.pending[ids[0]] := TaskResult(run, tasks[0])]);
            |answer.header| == 24 && Settle(sizes, h, answer) == h1 && Registered(sizes, h1, tasks[1..], ids[1..])
  {
    hide Delivery, Complete, Answer, ResultIdOf, WellFramed;
    var t := tasks[0];
    AnswerDelivers(t.resultSize, ids[0], run(t.executor, t.payload));
    AnswerFramed(ids[0], run(t.executor, t.payload));
  }

  /**
   The two loops end to end: requests sent to one worker, answered by its loop and taken in by its
   reader's, leave in each future what that task's own executor produced for its own payload, use up
   exactly those handlers, and touch no other future.
   */
  lemma {:induction false} LoopsDeliver(run: Executor, sizes: seq<Option<nat>>, h: Handlers, tasks: seq<Task>, ids: seq<nat>)
    requires Registered(sizes, h, tasks, ids) && PoolSafety.GoodExecutor(run)
    ensures HeaderSize(RequestFrames(tasks, ids), 32)
    ensures HeaderSize(Answers(run, RequestFrames(tasks, ids)), 24)
    ensures var h' := SettleAll(sizes, h, Answers(run, RequestFrames(tasks, ids)));
            UsedUp(h, ids, h') && Delivered(run, h, tasks, ids, h')
    decreases |ids|
  {
    hide Delivery, Complete, Answer, ResultIdOf, TaskResult, Settle, Delivered, UsedUp, RequestFrames, Answers;
    RequestsFramed(tasks, ids);
    AnswersFramed(run, RequestFrames(tasks, ids));
    if tasks == [] {
      EmptyDelivered(run, sizes, h);
      NoAnswers(run);
    } else {
      FirstAnswered(run, tasks, ids);
      FirstSettled(run, sizes, h, tasks, ids);
      var h1 := Settle(sizes, h, Answer(ids[0], run(tasks[0].executor, tasks[0].payload)));
      LoopsDeliver(run, sizes, h1, tasks[1..], ids[1..]);
      var h' := SettleAll(sizes, h1, Answers(run, RequestFrames(tasks[1..], ids[1..])));
      FirstUsedUp(h, ids, h1, h');
      FirstDelivered(run, sizes, h, tasks, ids, h1, h');
    }
  }

  lemma NoAnswers(run: Executor)
    ensures RequestFrames([], []) == [] && Answers(run, []) == []
  {
  }

  lemma RequestsFramed(tasks: seq<Task>, ids: seq<nat>)
    requires |tasks| == |ids|
    ensures HeaderSize(RequestFrames(tasks, ids), 32)
  {
  }

  lemma {:induction false} AnswersFramed(run: Executor, requests: seq<Frame>)
    requires HeaderSize(requests, 32)
    ensures HeaderSize(Answers(run, requests), 24)
    decreases |requests|
  {
    hide Answer, CommandOf, TaskIdOf, ExecutorOf;
    if requests != [] && CommandOf(requests[0]) != STOP {
      var f := requests[0];
      AnswerFramed(TaskIdOf(f), run(ExecutorOf(f), f.body));
      assert HeaderSize(requests[1..], 32);
      AnswersFramed(run, requests[1..]);
    }
  }

  /** The first request is answered first. */
  lemma FirstAnswered(run: Executor, tasks: seq<Task>, ids: seq<nat>)
    requires |tasks| == |ids| > 0 && ids[0] < WORD64 && tasks[0].executor < WORD64 && |tasks[0].payload| < WORD64
    ensures HeaderSize(RequestFrames(tasks, ids), 32) && HeaderSize(RequestFrames(tasks[1..], ids[1..]), 32)
    ensures Answers(run, RequestFrames(tasks, ids))
            == [Answer(ids[0], run(tasks[0].executor, tasks[0].payload))] + Answers(run, RequestFrames(tasks[1..], ids[1..]))
  {
    hide Answer, CommandOf, TaskIdOf, ExecutorOf;
    RequestsFramed(tasks, ids);
    RequestsFramed(tasks[1..], ids[1..]);
    RequestFramed(ids[0], tasks[0]);
    assert RequestFrames(tasks, ids) == [PoolMachine.RequestFrame(ids[0], tasks[0])] + RequestFrames(tasks[1..], ids[1..]);
  }

  lemma EmptyDelivered(run: Executor, sizes: seq<Option<nat>>, h: Handlers)
    ensures UsedUp(h, [], h) && Delivered(run, h, [], [], h)
  {
  }

  lemma RequestFramed(id: nat, t: Task)
    requires id < WORD64 && t.executor < WORD64 && |t.payload| < WORD64
    ensures var f := PoolMachine.RequestFrame(id, t);
            && |f.header| == 32 && CommandOf(f) != STOP && TaskIdOf(f) == id && ExecutorOf(f) == t.executor && f.body == t.payload
  {
    TaskFrameRoundTrip(RUN, id, t.executor, t.payload);
  }

  lemma AnswerFramed(id: nat, e: Executed)
    ensures |Answer(id, e).header| == 24
  {
  }

  // ---------- The worker process ----------

  /** What a worker still has to answer when its unread requests are `stream`. */
  function Owed(run: Executor, stream: seq<byte>): seq<byte> {
    var requests := Decode(TASK_AT, stream);
    assert HeaderSize(requests, 32);
    Wire(Answers(run, requests))
  }

  function Reply(run: Executor, header: seq<byte>, payload: seq<byte>): Frame
    requires |header| == 32
  {
    Answer(TaskIdOf(Frame(header, payload)), run(ExecutorOf(Frame(header, payload)), payload))
  }

  lemma OwedNothing(run: Executor, stream: seq<byte>)
    requires |stream| < 32 || |stream| < 32 + FromLe(stream[..32][24..]) || FromLe(stream[..32][..4]) == STOP
    ensures Owed(run, stream) == []
  {
  }

  lemma OwedNext(run: Executor, header: seq<byte>, payload: seq<byte>, rest: seq<byte>)
    requires |header| == 32 && |payload| == FromLe(header[24..]) && FromLe(header[..4]) != STOP
    ensures Owed(run, header + payload + rest) == FrameBytes(Reply(run, header, payload)) + Owed(run, rest)
  {
    hide Answer, Wire, FromLe;
    var stream := header + payload + rest;
    var n := 32 + |payload|;
    assert stream[..32] == header && stream[32..n] == payload && stream[n..] == rest;
    var answer := Reply(run, header, payload);
    var later := Decode(TASK_AT, rest);
    assert Decode(TASK_AT, stream) == [Frame(header, payload)] + later;
    assert HeaderSize(later, 32);
    assert Answers(run, [Frame(header, payload)] + later) == [answer] + Answers(run, later);
    WireConcat([answer], Answers(run, later));
    WireOne(answer);
  }

  lemma Cut(bytes: seq<byte>, i: nat, j: nat, k: nat)
    requires i <= j <= k <= |bytes|
    ensures bytes[i..] == bytes[i..j] + bytes[j..k] + bytes[k..] && bytes[i..][..j - i] == bytes[i..j]
  {
  }

  /** A frame: its header, and its body if it has one. */
  method SendFrame(socket: Socket, f: Frame, headerIo: Script, bodyIo: Script) returns (ok: bool)
    modifies socket`bytes
    ensures old(socket.bytes) <= socket.bytes <= old(socket.bytes) + FrameBytes(f)
    ensures ok <==> socket.bytes == old(socket.bytes) + FrameBytes(f)
    ensures (forall c :: c in headerIo || c in bodyIo ==> c != Error && c != Moved(0)) ==> ok
  {
    ghost var sent, used;
    ok, sent, used := socket.WriteExact(f.header, headerIo);
    if !ok { assert headerIo[used - 1] in headerIo; }
    if ok && |f.body| > 0 {
      ok, sent, used := socket.WriteExact(f.body, bodyIo);
      if !ok { assert bodyIo[used - 1] in bodyIo; }
    }
  }

  /** The body announced by a header, which may be empty. */
  method ReceiveBody(socket: Socket, size: nat, io: Script) returns (result: ReadResult)
    requires socket.consumed <= |socket.bytes|
    modifies socket`consumed
    ensures old(socket.consumed) <= socket.consumed <= |socket.bytes|
    ensures result.ReadAll? ==>
              socket.consumed == old(socket.consumed) + size && result.data == socket.bytes[old(socket.consumed)..socket.consumed]
    ensures result.Eof? ==> |socket.bytes| < old(socket.consumed) + size
    ensures (forall c :: c in io ==> c != Error) ==> !result.ReadFailed?
  {
    if size == 0 { return ReadAll([]); }
    ghost var used;
    result, used := socket.ReadExact(size, io);
    if result.ReadFailed? { assert io[used - 1] in io; }
  }

  /** Calls the executor and answers with the text of its exception, with nothing, or with its value. */
  method ExecuteAndAnswer(run: Executor, header: seq<byte>, payload: seq<byte>, response: Socket, headerIo: Script, bodyIo: Script)
      returns (ok: bool)
    requires |header| == 32
    modifies response`bytes
    ensures old(response.bytes) <= response.bytes <= old(response.bytes) + FrameBytes(Reply(run, header, payload))
    ensures ok ==> response.bytes == old(response.bytes) + FrameBytes(Reply(run, header, payload))
    ensures (forall c :: c in headerIo || c in bodyIo ==> c != Error && c != Moved(0)) ==> ok
  {
    hide FromLe, Le, FrameBytes;
    var id := FromLe(header[8..16]);
    var executed := run(FromLe(header[16..24]), payload);
    if executed.error != [] {
      ok := SendFrame(response, ResultFrame(id, EXCEPTION, executed.error), headerIo, bodyIo);
    } else if executed.result == [] {
      ok := SendFrame(response, ResultFrame(id, VOID, []), headerIo, bodyIo);
    } else {
      ok := SendFrame(response, ResultFrame(id, VALUE, executed.result), headerIo, bodyIo);
    }
  }

  /** What a worker answers, spelled out: a reply to each request before the first Stop. */
  lemma {:induction false} AnswersAre(run: Executor, requests: seq<Frame>, n: nat)
    requires HeaderSize(requests, 32) && n <= |requests|
    requires forall i :: 0 <= i < n ==> CommandOf(requests[i]) != STOP
    requires n < |requests| ==> CommandOf(requests[n]) == STOP
    ensures Answers(run, requests) == seq(n, i requires 0 <= i < n => Reply(run, requests[i].header, requests[i].body))
    decreases n
  {
    hide CommandOf, Reply;
    if n > 0 {
      assert HeaderSize(requests[1..], 32);
      AnswersAre(run, requests[1..], n - 1);
      ReplyIsAnswer(run, requests[0]);
    }
  }

  lemma ReplyIsAnswer(run: Executor, f: Frame)
    requires |f.header| == 32
    ensures Reply(run, f.header, f.body) == Answer(TaskIdOf(f), run(ExecutorOf(f), f.body))
  {
  }

  /** The requests of a stream. */
  function Requests(stream: seq<byte>): (frames: seq<Frame>)
    ensures HeaderSize(frames, 32)
  {
    Decode(TASK_AT, stream)
  }

  lemma OwedExactly(run: Executor, stream: seq<byte>, n: nat)
    requires var frames := Requests(stream);
             && n <= |frames| && (forall i :: 0 <= i < n ==> CommandOf(frames[i]) != STOP)
             && (n < |frames| ==> CommandOf(frames[n]) == STOP)
    ensures var frames := Requests(stream);
            Owed(run, stream) == Wire(seq(n, i requires 0 <= i < n => Reply(run, frames[i].header, frames[i].body)))
  {
    hide CommandOf, Reply;
    AnswersAre(run, Requests(stream), n);
  }

  lemma NextRequest(header: seq<byte>, payload: seq<byte>, rest: seq<byte>)
    requires |header| == 32 && |payload| == FromLe(header[24..])
    ensures Requests(header + payload + rest) == [Frame(header, payload)] + Requests(rest)
  {
    var stream := header + payload + rest;
    assert stream[..32] == header && stream[32..32 + |payload|] == payload && stream[32 + |payload|..] == rest;
  }

  /** What is left of the stream holds no whole request, or begins with one of this header. */
  lemma FirstRequest(stream: seq<byte>)
    ensures |stream| < 32 || |stream| < 32 + FromLe(stream[..32][24..]) ==> Requests(stream) == []
    ensures |stream| >= 32 && Requests(stream) != [] ==> Requests(stream)[0].header == stream[..32]
  {
  }

  lemma CountedOff(frames: seq<Frame>, done: seq<Frame>, rest: seq<Frame>)
    requires frames == done + rest
    ensures frames[..|done|] == done && (rest != [] ==> frames[|done|] == rest[0]) && (rest == [] ==> |frames| == |done|)
  {
  }

  /**
   The loop of a worker process. It answers its requests one by one up to the first Stop, where it
   leaves, or the end of the stream; if it ends by an exception instead, what it has written is a
   beginning of that. It ends so only if a call of read or write failed.
   */
  method WorkerLoop(run: Executor, request: Socket, response: Socket, io: nat -> Script) returns (clean: bool, ghost served: nat)
    requires request != response && request.consumed <= |request.bytes|
    modifies request`consumed, response`bytes
    ensures old(request.consumed) <= request.consumed <= |request.bytes|
    ensures old(response.bytes) <= response.bytes
    ensures response.bytes <= old(response.bytes) + Owed(run, request.bytes[old(request.consumed)..])
    ensures clean ==> response.bytes == old(response.bytes) + Owed(run, request.bytes[old(request.consumed)..])
    ensures var frames := Requests(request.bytes[old(request.consumed)..]);
            && served <= |frames| && (forall i :: 0 <= i < served ==> CommandOf(frames[i]) != 2)
            && (clean && served < |frames| ==>
                  CommandOf(frames[served]) == 2 && request.consumed == old(request.consumed) + |Wire(frames[..served])| + 32)
    ensures (forall k, c :: c in io(k) ==> c != Error && c != Moved(0)) ==> clean
  {
    hide Owed, FromLe, FrameBytes, Reply, Requests, Wire;
    ghost var total := response.bytes + Owed(run, request.bytes[request.consumed..]);
    ghost var frames := Requests(request.bytes[request.consumed..]);
    ghost var done: seq<Frame> := [];
    var calls: nat := 0;
    WireNothing();
    while true
      invariant old(request.consumed) <= request.consumed <= |request.bytes|
      invariant old(response.bytes) <= response.bytes
      invariant response.bytes + Owed(run, request.bytes[request.consumed..]) == total
      invariant frames == done + Requests(request.bytes[request.consumed..])
      invariant request.consumed == old(request.consumed) + |Wire(done)|
      invariant HeaderSize(done, 32) && forall i :: 0 <= i < |done| ==> CommandOf(done[i]) != 2
      decreases |request.bytes| - request.consumed
    {
      served := |done|;
      ghost var start := request.consumed;
      ghost var rest := request.bytes[start..];
      FirstRequest(rest);
      CountedOff(frames, done, Requests(rest));
      var header, used := request.ReadExact(32, io(calls));
      if !header.ReadAll? {
        if header.Eof? { OwedNothing(run, rest); } else { assert io(calls)[used - 1] in io(calls); }
        return header.Eof?, served;
      }
      Cut(request.bytes, start, start + 32, request.consumed);
      if FromLe(header.data[..4]) == STOP {
        OwedNothing(run, rest);
        return true, served;
      }
      var payload := ReceiveBody(request, FromLe(header.data[24..]), io(calls + 1));
      if !payload.ReadAll? {
        if payload.Eof? { OwedNothing(run, rest); }
        return payload.Eof?, served;
      }
      ghost var later := request.bytes[request.consumed..];
      Cut(request.bytes, start, start + 32, request.consumed);
      OwedNext(run, header.data, payload.data, later);
      ghost var before, answer := response.bytes, FrameBytes(Reply(run, header.data, payload.data));
      assert (before + answer) + Owed(run, later) == total;
      var ok := ExecuteAndAnswer(run, header.data, payload.data, response, io(calls + 2), io(calls + 3));
      if !ok { return false, served; }
      NextRequest(header.data, payload.data, later);
      WireAppend(done, Frame(header.data, payload.data));
      FrameLength(Frame(header.data, payload.data));
      done := done + [Frame(header.data, payload.data)];
      calls := calls + 4;
    }
  }

  lemma WireNothing()
    ensures Wire([]) == []
  {
  }

  lemma FrameLength(f: Frame)
    ensures |FrameBytes(f)| == |f.header| + |f.body|
  {
  }

  // ---------- The pool ----------

  /** Handlers are for different futures, and for ones not completed yet. */
  ghost predicate PendingOk(sizes: seq<Option<nat>>, h: Handlers) {
    && HandlersOk(sizes, h)
    && (forall a, b :: a in h.pending && b in h.pending && a != b ==> h.pending[a] != h.pending[b])
    && (forall id :: id in h.pending ==> h.futures[h.pending[id]] == Unready)
  }

  lemma SettleOk(sizes: seq<Option<nat>>, h: Handlers, f: Frame)
    requires PendingOk(sizes, h) && |f.header| == 24
    ensures PendingOk(sizes, Settle(sizes, h, f)) && Settle(sizes, h, f).pending.Keys <= h.pending.Keys
  {
    hide Complete;
  }

  lemma {:induction false} SettleAppend(sizes: seq<Option<nat>>, h: Handlers, done: seq<Frame>, f: Frame)
    requires HandlersOk(sizes, h) && HeaderSize(done, 24) && |f.header| == 24
    ensures HeaderSize(done + [f], 24)
    ensures SettleAll(sizes, h, done + [f]) == Settle(sizes, SettleAll(sizes, h, done), f)
    decreases |done|
  {
    hide Settle;
    if done == [] {
      assert done + [f] == [f] && [f][1..] == [];
    } else {
      assert HeaderSize(done[1..], 24);
      assert (done + [f])[1..] == done[1..] + [f];
      SettleAppend(sizes, Settle(sizes, h, done[0]), done[1..], f);
    }
  }

  lemma DecodeNothing(stream: seq<byte>)
    requires |stream| < 24 || |stream| < 24 + FromLe(stream[..24][16..])
    ensures Results(stream) == []
  {
  }

  lemma DecodeNext(header: seq<byte>, payload: seq<byte>, rest: seq<byte>)
    requires |header| == 24 && |payload| == FromLe(header[16..])
    ensures Results(header + payload + rest) == [Frame(header, payload)] + Results(rest)
  {
    var stream := header + payload + rest;
    assert stream[..24] == header && stream[24..24 + |payload|] == payload && stream[24 + |payload|..] == rest;
  }

  function Results(stream: seq<byte>): (frames: seq<Frame>)
    ensures HeaderSize(frames, 24)
  {
    Decode(RESULT_AT, stream)
  }

  /** Every pending handler is used to fail its future. */
  function FailedAll(h: Handlers, reason: seq<byte>): (h': Handlers)
  {
    Handlers(map[], seq(|h.futures|, ref requires 0 <= ref < |h.futures| =>
                          if ref in h.pending.Values then Failed(reason) else h.futures[ref]))
  }

  lemma FailsNext(h: Handlers, id: nat, reason: seq<byte>)
    requires id in h.pending && h.pending[id] < |h.futures|
    ensures FailedAll(Handlers(h.pending - {id}, h.futures[h.pending[id] := Failed(reason)]), reason) == FailedAll(h, reason)
  {
    var h' := Handlers(h.pending - {id}, h.futures[h.pending[id] := Failed(reason)]);
    forall ref | 0 <= ref < |h.futures|
      ensures FailedAll(h', reason).futures[ref] == FailedAll(h, reason).futures[ref]
    {
      if ref in h.pending.Values {
        var x :| x in h.pending && h.pending[x] == ref;
        assert x != id ==> x in h'.pending && h'.pending[x] == ref;
      }
    }
  }

  lemma NothingPending(sizes: seq<Option<nat>>, h: Handlers)
    ensures PendingOk(sizes, h) ==> HandlersOk(sizes, h)
    ensures h.pending == map[] && |sizes| == |h.futures| ==> PendingOk(sizes, h)
  {
  }

  /** What failing every pending handler leaves, spelled out. */
  lemma FailedExactly(h: Handlers, reason: seq<byte>)
    ensures var h' := FailedAll(h, reason);
            && h'.pending == map[] && |h'.futures| == |h.futures|
            && (forall id :: id in h.pending && h.pending[id] < |h.futures| ==> h'.futures[h.pending[id]] == Failed(reason))
            && (forall ref :: 0 <= ref < |h.futures| && ref !in h.pending.Values ==> h'.futures[ref] == h.futures[ref])
  {
  }

  lemma FailsNone(futures: seq<Future>, reason: seq<byte>)
    ensures FailedAll(Handlers(map[], futures), reason) == Handlers(map[], futures)
  {
  }

  /**
   `futures` are the shared states made so far, by reference, with the size of each result type;
   `pending` maps task ids to the references their handlers complete.
   */
  class ProcessPool {
    var nextTaskId: nat
    var pending: map<nat, nat>
    var futures: seq<Future>
    var resultSizes: seq<Option<nat>>
    var stopping: bool
    var nextWorker: nat
    const requests: seq<Socket>
    const responses: seq<Socket>

    ghost predicate Valid()
      reads this
    {
      && 0 < |requests| == |responses|
      && (forall i, j :: 0 <= i < j < |requests| ==> requests[i] != requests[j] && responses[i] != responses[j])
      && (forall i, j :: 0 <= i < |requests| && 0 <= j < |requests| ==> requests[i] != responses[j])
      && PendingOk(resultSizes, Handlers(pending, futures))
      && (forall id :: id in pending ==> id < nextTaskId)
    }

    lemma ValidHandlers()
      requires Valid()
      ensures HandlersOk(resultSizes, Now())
    {
    }

    ghost function Now(): Handlers
      reads this
    {
      Handlers(pending, futures)
    }

    constructor (requests: seq<Socket>, responses: seq<Socket>)
      requires 0 < |requests| == |responses|
      requires forall i, j :: 0 <= i < j < |requests| ==> requests[i] != requests[j] && responses[i] != responses[j]
      requires forall i, j :: 0 <= i < |requests| && 0 <= j < |requests| ==> requests[i] != responses[j]
      ensures Valid() && this.requests == requests && this.responses == responses
      ensures Now() == Handlers(map[], []) && nextTaskId == 1 && !stopping && nextWorker == 0
    {
      this.requests, this.responses := requests, responses;
      nextTaskId, pending, futures, resultSizes, stopping, nextWorker := 1, map[], [], [], false, 0;
    }

    /** Makes a shared state, draws a task id, and registers the handler for it. */
    method RegisterHandler(resultSize: Option<nat>) returns (taskId: nat, ref: nat)
      requires Valid()
      modifies this`futures, this`resultSizes, this`nextTaskId, this`pending
      ensures Valid() && taskId == old(nextTaskId) && ref == |old(futures)| && nextTaskId == taskId + 1
      ensures futures == old(futures) + [Unready] && resultSizes == old(resultSizes) + [resultSize]
      ensures pending == old(pending)[taskId := ref]
    {
      ref := |futures|;
      futures, resultSizes := futures + [Unready], resultSizes + [resultSize];
      taskId := nextTaskId;
      nextTaskId := nextTaskId + 1;
      pending := pending[taskId := ref];
    }

    /**
     Submit: registers a handler, serialises the call, and sends it to the next worker in turn. None
     stands for an exception; the handler then stays behind.
     */
    method Submit(fn: seq<byte>, args: seq<seq<byte>>, executor: nat, resultSize: Option<nat>, headerIo: Script, bodyIo: Script)
        returns (future: Option<nat>)
      requires Valid()
      modifies this, requests
      ensures Valid() && stopping == old(stopping) && nextTaskId == old(nextTaskId) + 1
      ensures futures == old(futures) + [Unready] && resultSizes == old(resultSizes) + [resultSize]
      ensures pending == old(pending)[old(nextTaskId) := |old(futures)|]
      ensures future.Some? ==> future.value == |old(futures)| && !stopping
      ensures !stopping && (forall c :: c in headerIo || c in bodyIo ==> c != Error && c != Moved(0)) ==> future.Some?
      ensures nextWorker == if stopping then old(nextWorker) else old(nextWorker) + 1
      ensures forall v :: 0 <= v < |requests| && (stopping || v != old(nextWorker) % |requests|) ==>
                requests[v].bytes == old(requests[v].bytes)
      ensures !stopping ==>
                var w := old(nextWorker) % |requests|;
                var sent := old(requests[w].bytes) + FrameBytes(TaskFrame(RUN, old(nextTaskId), executor, Payload([fn] + args)));
                old(requests[w].bytes) <= requests[w].bytes <= sent && (future.Some? <==> requests[w].bytes == sent)
    {
      hide Payload, Le, TaskFrame, PendingOk;
      var taskId, ref := RegisterHandler(resultSize);
      var payload := Serialise(fn, args);
      var header := TaskFrame(RUN, taskId, executor, payload).header;
      if stopping { return None; }
      var w := nextWorker % |requests|;
      nextWorker := nextWorker + 1;
      var ok := SendFrame(requests[w], Frame(header, payload), headerIo, bodyIo);
      TaskBody(RUN, taskId, executor, payload);
      return if ok then Some(ref) else None;
    }

    /**
     ReaderLoop of one worker: the handlers of the responses on its socket are taken out of `pending` and
     complete their futures, one after another; all of them, unless the loop ends by an exception.
     */
    method ReaderLoop(socket: Socket, io: nat -> Script) returns (clean: bool, ghost count: nat)
      requires Valid() && socket in responses && socket.consumed <= |socket.bytes|
      modifies this`pending, this`futures, socket`consumed
      ensures Valid() && old(socket.consumed) <= socket.consumed <= |socket.bytes|
      ensures var all := Results(socket.bytes[old(socket.consumed)..]);
              && count <= |all| && HeaderSize(all[..count], 24)
              && Now() == SettleAll(resultSizes, old(Now()), all[..count])
              && (clean ==> count == |all|)
      ensures (forall k, c :: c in io(k) ==> c != Error) ==> clean
    {
      hide FromLe, Settle, SettleAll, Decode, Results, Complete, ResultIdOf, StatusOf, HandlersOk, Valid;
      ValidHandlers();
      ghost var all := Results(socket.bytes[socket.consumed..]);
      ghost var done: seq<Frame> := [];
      var calls: nat := 0;
      SettleNone(resultSizes, Now());
      while true
        invariant Valid() && old(socket.consumed) <= socket.consumed <= |socket.bytes|
        invariant all == done + Results(socket.bytes[socket.consumed..])
        invariant HeaderSize(done, 24) && Now() == SettleAll(resultSizes, old(Now()), done)
        decreases |socket.bytes| - socket.consumed
      {
        ghost var start := socket.consumed;
        Front(all, done, Results(socket.bytes[start..]));
        var header, used := socket.ReadExact(24, io(calls));
        if !header.ReadAll? {
          if header.Eof? { DecodeNothing(socket.bytes[start..]); } else { assert io(calls)[used - 1] in io(calls); }
          return header.Eof?, |done|;
        }
        Cut(socket.bytes, start, start + 24, socket.consumed);
        var payload := ReceiveBody(socket, FromLe(header.data[16..]), io(calls + 1));
        if !payload.ReadAll? {
          if payload.Eof? { DecodeNothing(socket.bytes[start..]); }
          return payload.Eof?, |done|;
        }
        OneResponse(socket.bytes, start, socket.consumed, Frame(header.data, payload.data), all, done, resultSizes, old(Now()));
        HandleResponse(header.data, payload.data);
        done := done + [Frame(header.data, payload.data)];
        calls := calls + 2;
      }
    }

    /** The body of the reader's loop for one response. */
    method HandleResponse(header: seq<byte>, payload: seq<byte>)
      requires Valid() && |header| == 24
      modifies this`pending, this`futures
      ensures Valid() && Now() == Settle(resultSizes, old(Now()), Frame(header, payload))
      ensures var id := FromLe(header[..8]);
              if id !in old(pending) then pending == old(pending) && futures == old(futures)
              else
                var ref := old(pending)[id];
                && pending == old(pending) - {id} && ref < |old(futures)| == |futures| == |resultSizes|
                && (forall other :: 0 <= other < |futures| && other != ref ==> futures[other] == old(futures)[other])
                && futures[ref] == (if FromLe(header[8..12]) == 3 then Failed(payload)
                                    else if resultSizes[ref].None? then Done
                                    else if |payload| == resultSizes[ref].value then Value(payload)
                                    else Failed(Ascii("invalid payload size for result")))
    {
      hide FromLe;
      SettleOk(resultSizes, Now(), Frame(header, payload));
      var taskId := FromLe(header[..8]);
      if taskId !in pending { return; }
      var ref := pending[taskId];
      pending := pending - {taskId};
      if FromLe(header[8..12]) == EXCEPTION {
        futures := futures[ref := Failed(payload)];
      } else {
        futures := futures[ref := SetValue(resultSizes[ref], payload)];
      }
    }

    /** FailAllPending: every handler is taken out and fails its future. */
    method FailAllPending(reason: seq<byte>)
      requires Valid()
      modifies this`pending, this`futures
      ensures Valid() && Now() == FailedAll(old(Now()), reason)
      ensures pending == map[] && |futures| == |old(futures)|
      ensures forall id :: id in old(pending) ==> futures[old(pending)[id]] == Failed(reason)
      ensures forall ref :: 0 <= ref < |futures| && ref !in old(pending).Values ==> futures[ref] == old(futures)[ref]
    {
      hide FailedAll, PendingOk;
      var temp: map<nat, nat> := pending;
      NothingPending(resultSizes, Now());
      pending := map[];
      while temp != map[]
        invariant pending == map[] && |futures| == |old(futures)| && forall id :: id in temp ==> temp[id] < |futures|
        invariant FailedAll(Handlers(temp, futures), reason) == FailedAll(old(Now()), reason)
        decreases |temp.Keys|
      {
        var id :| id in temp;
        FailsNext(Handlers(temp, futures), id, reason);
        futures := futures[temp[id] := Failed(reason)];
        assert (temp - {id}).Keys == temp.Keys - {id};
        temp := temp - {id};
      }
      assert temp == map[];
      FailsNone(futures, reason);
      FailedExactly(old(Now()), reason);
      NothingPending(resultSizes, Now());
    }

    /**
     Shutdown, with every reader joined: the first call sends each worker a Stop, as far as its socket
     takes it, and fails what is pending; any later call does nothing.
     */
    method Shutdown(io: nat -> Script)
      requires Valid()
      modifies this, requests
      ensures Valid() && stopping && nextTaskId == old(nextTaskId) && nextWorker == old(nextWorker) && resultSizes == old(resultSizes)
      ensures Now() == if old(stopping) then old(Now()) else FailedAll(old(Now()), SHUTDOWN)
      ensures forall v :: 0 <= v < |requests| ==>
                && old(requests[v].bytes) <= requests[v].bytes <= old(requests[v].bytes) + FrameBytes(StopFrame())
                && (old(stopping) ==> requests[v].bytes == old(requests[v].bytes))
                && (!old(stopping) && (forall c :: c in io(v) ==> c != Error && c != Moved(0)) ==>
                      requests[v].bytes == old(requests[v].bytes) + FrameBytes(StopFrame()))
      ensures !old(stopping) ==>
                && pending == map[] && |futures| == |old(futures)|
                && (forall id :: id in old(pending) ==> futures[old(pending)[id]] == Failed(SHUTDOWN))
                && (forall ref :: 0 <= ref < |futures| && ref !in old(pending).Values ==> futures[ref] == old(futures)[ref])
    {
      hide StopFrame, FailedAll, PendingOk;
      if stopping { return; }
      stopping := true;
      SendStops(io);
      FailAllPending(SHUTDOWN);
    }

    /** The loop of Shutdown that sends each worker its Stop; what fails for one does not stop the others. */
    method SendStops(io: nat -> Script)
      requires Valid()
      modifies requests
      ensures forall v :: 0 <= v < |requests| ==>
                && old(requests[v].bytes) <= requests[v].bytes <= old(requests[v].bytes) + FrameBytes(StopFrame())
                && ((forall c :: c in io(v) ==> c != Error && c != Moved(0)) ==>
                      requests[v].bytes == old(requests[v].bytes) + FrameBytes(StopFrame()))
    {
      hide StopFrame, PendingOk;
      StopHasNoBody();
      for i := 0 to |requests|
        invariant forall v :: i <= v < |requests| ==> requests[v].bytes == old(requests[v].bytes)
        invariant forall v :: 0 <= v < i ==>
                    && old(requests[v].bytes) <= requests[v].bytes <= old(requests[v].bytes) + FrameBytes(StopFrame())
                    && ((forall c :: c in io(v) ==> c != Error && c != Moved(0)) ==>
                          requests[v].bytes == old(requests[v].bytes) + FrameBytes(StopFrame()))
      {
        var ok := SendFrame(requests[i], StopFrame(), io(i), []);
      }
    }
  }

  lemma StopHasNoBody()
    ensures StopFrame().body == []
  {
  }

  /** A response read whole is the next one of the stream. */
  lemma OneResponse(bytes: seq<byte>, start: nat, end: nat, f: Frame, all: seq<Frame>, done: seq<Frame>,
                    sizes: seq<Option<nat>>, h: Handlers)
    requires start + 24 <= end <= |bytes| && f == Frame(bytes[start..start + 24], bytes[start + 24..end])
    requires |f.body| == FromLe(f.header[16..]) && all == done + Results(bytes[start..])
    requires HandlersOk(sizes, h) && HeaderSize(done, 24)
    ensures all == done + [f] + Results(bytes[end..])
    ensures HeaderSize(done + [f], 24) && SettleAll(sizes, h, done + [f]) == Settle(sizes, SettleAll(sizes, h, done), f)
  {
    hide FromLe, Results, Settle, SettleAll;
    Cut(bytes, start, start + 24, end);
    DecodeNext(f.header, f.body, bytes[end..]);
    SettleAppend(sizes, h, done, f);
    assert done + ([f] + Results(bytes[end..])) == done + [f] + Results(bytes[end..]);
  }

  lemma Front<T>(all: seq<T>, a: seq<T>, b: seq<T>)
    requires all == a + b
    ensures all[..|a|] == a && (b == [] ==> all == a)
  {
  }

  lemma SettleNone(sizes: seq<Option<nat>>, h: Handlers)
    requires HandlersOk(sizes, h)
    ensures SettleAll(sizes, h, []) == h
  {
  }

  lemma TaskBody(command: nat, id: nat, executor: nat, payload: seq<byte>)
    ensures TaskFrame(command, id, executor, payload).body == payload
  {
  }

  /** The function and then the arguments, one AppendBytes each. */
  method Serialise(fn: seq<byte>, args: seq<seq<byte>>) returns (payload: seq<byte>)
    ensures payload == Payload([fn] + args)
  {
    payload := fn;
    assert ([fn] + args[..0])[..0] == [];
    for i := 0 to |args|
      invariant payload == Payload([fn] + args[..i])
    {
      payload := payload + args[i];
      assert ([fn] + args[..i + 1])[..i + 1] == [fn] + args[..i];
    }
    assert args[..|args|] == args;
  }

  /** Spawns the workers with their sockets; the constructor's exception for an empty pool is None. */
  method MakePool(processCount: nat) returns (pool: Option<ProcessPool>)
    ensures pool.None? <==> processCount == 0
    ensures pool.Some? ==>
              var p := pool.value;
              && fresh(p) && p.Valid() && |p.requests| == processCount && p.Now() == Handlers(map[], [])
              && p.nextTaskId == 1 && !p.stopping && p.nextWorker == 0
              && forall i :: 0 <= i < processCount ==>
                   && fresh(p.requests[i]) && p.requests[i].bytes == [] && p.requests[i].consumed == 0
                   && fresh(p.responses[i]) && p.responses[i].bytes == [] && p.responses[i].consumed == 0
  {
    if processCount == 0 { return None; }
    var requests: seq<Socket>, responses: seq<Socket> := [], [];
    for i := 0 to processCount
      invariant |requests| == |responses| == i
      invariant forall j, k :: 0 <= j < k < i ==> requests[j] != requests[k] && responses[j] != responses[k]
      invariant forall j, k :: 0 <= j < i && 0 <= k < i ==> requests[j] != responses[k]
      invariant forall j :: 0 <= j < i ==> fresh(requests[j]) && requests[j].bytes == [] && requests[j].consumed == 0
      invariant forall j :: 0 <= j < i ==> fresh(responses[j]) && responses[j].bytes == [] && responses[j].consumed == 0
    {
      var request := new Socket();
      var response := new Socket();
      requests, responses := requests + [request], responses + [response];
    }
    var p := new ProcessPool(requests, responses);
    return Some(p);
  }
}
