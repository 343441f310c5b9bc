/** The invariant of the process pool. */
module PoolSafety {
  import opened Bytes
  import opened Options
  import opened PoolFraming
  import opened PoolTasks
  import opened PoolMachine

  // ---------- One worker's sockets ----------

  /** A request is a Stop, or the task behind the reference its id was drawn for. */
  ghost predicate GoodRequest(refOf: map<nat, nat>, tasks: seq<Task>, f: Frame) {
    && |f.header| == 32 && WellFramed(TASK_AT, f)
    && (CommandOf(f) != STOP ==>
          && TaskIdOf(f) in refOf && TaskIdOf(f) < WORD64 && refOf[TaskIdOf(f)] < |tasks|
          && ExecutorOf(f) == tasks[refOf[TaskIdOf(f)]].executor
          && f.body == tasks[refOf[TaskIdOf(f)]].payload)
  }

  /** The answer of a worker to a request it executed. */
  function AnswerTo(run: Executor, f: Frame): Frame
    requires |f.header| == 32
  {
    Answer(TaskIdOf(f), run(ExecutorOf(f), f.body))
  }

  function Todo(w: Writer): seq<byte> { if w.Nobody? then [] else w.todo }
  function Unsent(p: Process): seq<byte> { if p.PAnswering? then p.todo else [] }

  ghost predicate RequestsOk(refOf: map<nat, nat>, tasks: seq<Task>, k: Worker) {
    && LinkOk(TASK_AT, k.req)
    && (forall i :: 0 <= i < |k.req.sent| ==> GoodRequest(refOf, tasks, k.req.sent[i]))
    && (!k.broken ==> k.req.bytes + Todo(k.writer) == Wire(k.req.sent))
  }

  /** Every frame taken off the request socket was a task and has its answer on the response socket. */
  ghost predicate AnswersOk(run: Executor, k: Worker) {
    && LinkOk(RESULT_AT, k.resp)
    && |k.resp.sent| == k.req.taken <= |k.req.sent|
    && (forall i :: 0 <= i < |k.resp.sent| ==>
          |k.req.sent[i].header| == 32 && CommandOf(k.req.sent[i]) != STOP && k.resp.sent[i] == AnswerTo(run, k.req.sent[i]))
    && (!k.process.PExited? ==> k.resp.bytes + Unsent(k.process) == Wire(k.resp.sent))
  }

  /** A reader holds the answer of the task whose handler it took. */
  ghost predicate HoldingOk(run: Executor, refOf: map<nat, nat>, tasks: seq<Task>, k: Worker) {
    k.reader.RHolding? ==>
      var id, ref := k.reader.id, k.reader.ref;
      && id in refOf && refOf[id] == ref < |tasks| && id < WORD64
      && k.reader.f == Answer(id, run(tasks[ref].executor, tasks[ref].payload))
  }

  ghost predicate WorkerOk(run: Executor, refOf: map<nat, nat>, tasks: seq<Task>, k: Worker) {
    RequestsOk(refOf, tasks, k) && AnswersOk(run, k) && HoldingOk(run, refOf, tasks, k)
  }

  ghost predicate WorkersOk(run: Executor, s: State) {
    forall w :: 0 <= w < |s.workers| ==> WorkerOk(run, s.refOf, s.tasks, s.workers[w])
  }

  /** The executors' outputs have sizes a 64-bit field can carry. */
  ghost predicate GoodExecutor(run: Executor) {
    forall e, p :: |run(e, p).result| < WORD64 && |run(e, p).error| < WORD64
  }

  // ---------- Handlers and shared states ----------

  function SwappedHandlers(d: Shutdown): map<nat, nat> { if d.Failing? then d.todo else map[] }

  /** Each registered handler is in exactly one place, and carries the reference its id was drawn for. */
  ghost predicate PlacesOk(s: State) {
    && (forall id :: id in s.place ==> id in s.refOf)
    && (forall id :: id in s.pending <==> id in s.place && s.place[id] == InPending)
    && (forall id :: id in s.pending ==> s.pending[id] == s.refOf[id])
    && (forall w :: 0 <= w < |s.workers| && s.workers[w].reader.RHolding? ==>
          s.workers[w].reader.id in s.place && s.place[s.workers[w].reader.id] == WithReader(w))
    && (forall id :: id in s.place && s.place[id].WithReader? ==>
          s.place[id].w < |s.workers| && s.workers[s.place[id].w].reader.RHolding?
          && s.workers[s.place[id].w].reader.id == id)
    && (forall id :: id in SwappedHandlers(s.shutdown) <==> id in s.place && s.place[id] == SwappedOut)
    && (forall id :: id in SwappedHandlers(s.shutdown) ==> SwappedHandlers(s.shutdown)[id] == s.refOf[id])
  }

  ghost predicate AfterSwap(s: State) { s.shutdown.Failing? || s.shutdown.Finished? }

  /** What the shared state of a drawn id looks like. */
  ghost predicate StateOk(run: Executor, s: State, id: nat)
    requires id in s.refOf && s.refOf[id] < |s.futures| == |s.tasks| == |s.completions|
  {
    var ref := s.refOf[id];
    if id in s.place && s.place[id] == Completed then
      && s.completions[ref] == 1
      && s.futures[ref] == Delivery(s.tasks[ref].resultSize, run(s.tasks[ref].executor, s.tasks[ref].payload))
    else if id in s.place && s.place[id] == Abandoned then
      s.completions[ref] == 1 && s.futures[ref] == Failed(SHUTDOWN) && AfterSwap(s)
    else s.completions[ref] == 0 && s.futures[ref] == Unready
  }

  ghost predicate RefsOk(run: Executor, s: State) {
    && |s.futures| == |s.tasks| == |s.completions| == |s.idOf| && 0 < s.nextId <= WORD64
    && (forall id :: id in s.refOf ==> 0 < id < s.nextId && s.refOf[id] < |s.futures| && s.idOf[s.refOf[id]] == id)
    && (forall id :: id in s.refOf ==> StateOk(run, s, id))
    && (forall ref :: 0 <= ref < |s.futures| ==>
          if s.idOf[ref] == 0 then s.completions[ref] == 0 && s.futures[ref] == Unready
          else s.idOf[ref] in s.refOf && s.refOf[s.idOf[ref]] == ref)
    && (forall ref :: 0 <= ref < |s.tasks| ==> s.tasks[ref].executor < WORD64 && |s.tasks[ref].payload| < WORD64)
  }

  // ---------- Submitting threads and shutdown ----------

  ghost predicate SubmitterOk(s: State, p: nat)
    requires p < |s.submitters|
  {
    match s.submitters[p]
    case SIdle => true
    case SMade(ref) => ref < |s.idOf| && s.idOf[ref] == 0
    case SNumbered(ref, id) => id in s.refOf && s.refOf[id] == ref && id !in s.place
    case SRegistered(ref, id) => id in s.refOf && s.refOf[id] == ref && id in s.place
    case SChosen(ref, id, w) => id in s.refOf && s.refOf[id] == ref && id in s.accepted
    case SWriting(ref, id, w) => id in s.refOf && s.refOf[id] == ref && id in s.accepted
  }

  /** No two threads hold the same fresh reference or the same unregistered id. */
  ghost predicate Distinct(s: State) {
    forall p, q :: 0 <= p < |s.submitters| && 0 <= q < |s.submitters| && p != q ==>
      && (s.submitters[p].SMade? && s.submitters[q].SMade? ==> s.submitters[p].ref != s.submitters[q].ref)
      && (s.submitters[p].SNumbered? && s.submitters[q].SNumbered? ==> s.submitters[p].id != s.submitters[q].id)
  }

  ghost predicate SubmittersOk(s: State) {
    && (forall p :: 0 <= p < |s.submitters| ==> SubmitterOk(s, p))
    && Distinct(s)
    && (forall id :: id in s.accepted ==> id in s.place)
    && (forall ref :: ref in s.returned ==> ref < |s.idOf| && s.idOf[ref] != 0 && s.idOf[ref] in s.accepted)
  }

  ghost predicate AllReadersExited(s: State, n: nat) {
    forall w :: 0 <= w < n && w < |s.workers| ==> s.workers[w].reader.RExited?
  }

  ghost predicate ShutdownOk(s: State) {
    && (s.stopping <==> !s.shutdown.Running?)
    && (s.shutdown.Joining? ==> AllReadersExited(s, s.shutdown.i))
    && (s.shutdown.Swapping? || AfterSwap(s) ==> AllReadersExited(s, |s.workers|))
    && (AfterSwap(s) ==> forall id :: id in s.accepted ==>
          id in s.place && (s.place[id] == SwappedOut || s.place[id] == Completed || s.place[id] == Abandoned))
  }

  ghost predicate Inv(run: Executor, s: State) {
    WorkersOk(run, s) && PlacesOk(s) && RefsOk(run, s) && SubmittersOk(s) && ShutdownOk(s)
  }

  lemma InitInv(run: Executor, submitters: nat, workers: nat)
    ensures Inv(run, Init(submitters, workers))
  {
    hide WorkerOk;
    FreshWorkerOk(run);
  }

  lemma FreshWorkerOk(run: Executor)
    ensures WorkerOk(run, map[], [], Worker(FRESH_LINK, FRESH_LINK, Nobody, false, PReading, RReading))
  {
    hide CommandOf, TaskIdOf, ExecutorOf, Answer, AnswerTo, WellFramed, GoodRequest;
  }

  // ---------- Steps on one worker ----------

  lemma RequestsGrow(refOf: map<nat, nat>, tasks: seq<Task>, refOf': map<nat, nat>, tasks': seq<Task>, run: Executor, k: Worker)
    requires WorkerOk(run, refOf, tasks, k)
    requires tasks <= tasks' && forall id :: id in refOf ==> id in refOf' && refOf'[id] == refOf[id]
    ensures WorkerOk(run, refOf', tasks', k)
  {
    hide LinkOk, Wire, CommandOf, TaskIdOf, ExecutorOf, Answer, AnswerTo, WellFramed;
    forall i | 0 <= i < |k.req.sent|
      ensures GoodRequest(refOf', tasks', k.req.sent[i])
    {
      assert GoodRequest(refOf, tasks, k.req.sent[i]);
    }
  }

  lemma GoodIsFramed(refOf: map<nat, nat>, tasks: seq<Task>, f: Frame)
    requires GoodRequest(refOf, tasks, f)
    ensures WellFramed(TASK_AT, f)
  {
  }

  /** Taking the write_mutex with a good frame. */
  lemma LockOk(run: Executor, refOf: map<nat, nat>, tasks: seq<Task>, k: Worker, who: Who, f: Frame)
    requires WorkerOk(run, refOf, tasks, k) && GoodRequest(refOf, tasks, f) && k.writer == Nobody
    ensures WorkerOk(run, refOf, tasks, Lock(k, who, f))
  {
    hide LinkOk, Wire, CommandOf, TaskIdOf, ExecutorOf, Answer, AnswerTo, FrameBytes, GoodRequest;
    GoodIsFramed(refOf, tasks, f);
    QueueOk(TASK_AT, k.req, f);
    WireAppend(k.req.sent, f);
    assert k.req.bytes + [] == k.req.bytes;
  }

  lemma WritePieceOk(run: Executor, refOf: map<nat, nat>, tasks: seq<Task>, k: Worker, n: nat)
    requires WorkerOk(run, refOf, tasks, k) && k.writer.Writer? && n <= |k.writer.todo| && !k.broken
    ensures WorkerOk(run, refOf, tasks, WritePiece(k, n))
  {
    hide LinkOk, Wire, Answer, AnswerTo, FrameBytes, GoodRequest;
    var todo := k.writer.todo;
    assert todo == todo[..n] + todo[n..];
    assert (k.req.bytes + todo[..n]) + todo[n..] == k.req.bytes + todo;
    WriteOk(TASK_AT, k.req, todo[..n]);
  }

  /** A write_mutex is released with everything written, or the socket is given up. */
  lemma ReleaseOk(run: Executor, refOf: map<nat, nat>, tasks: seq<Task>, k: Worker, k': Worker)
    requires WorkerOk(run, refOf, tasks, k)
    requires k' == k.(writer := k'.writer, broken := k'.broken)
    requires k'.broken || (!k.broken && Todo(k.writer) == Todo(k'.writer) == [])
    ensures WorkerOk(run, refOf, tasks, k')
  {
    hide LinkOk, Wire, Answer, AnswerTo, FrameBytes, GoodRequest;
  }

  lemma ProcessReadsOk(run: Executor, refOf: map<nat, nat>, tasks: seq<Task>, k: Worker, n: nat)
    requires WorkerOk(run, refOf, tasks, k) && 0 < n <= Needed(TASK_AT, k.req.got) && k.req.read + n <= |k.req.bytes|
    ensures WorkerOk(run, refOf, tasks, k.(req := Read(k.req, n)))
  {
    hide LinkOk, Wire, Answer, AnswerTo, FrameBytes, GoodRequest, Needed;
    ReadOk(TASK_AT, k.req, n);
  }

  lemma ReaderReadsOk(run: Executor, refOf: map<nat, nat>, tasks: seq<Task>, k: Worker, n: nat)
    requires WorkerOk(run, refOf, tasks, k) && 0 < n <= Needed(RESULT_AT, k.resp.got) && k.resp.read + n <= |k.resp.bytes|
    ensures WorkerOk(run, refOf, tasks, k.(resp := Read(k.resp, n)))
  {
    hide LinkOk, Wire, Answer, AnswerTo, FrameBytes, GoodRequest, Needed;
    ReadOk(RESULT_AT, k.resp, n);
  }

  lemma ProcessWritesOk(run: Executor, refOf: map<nat, nat>, tasks: seq<Task>, k: Worker, n: nat)
    requires WorkerOk(run, refOf, tasks, k) && k.process.PAnswering? && n <= |k.process.todo|
    ensures WorkerOk(run, refOf, tasks, k.(resp := Write(k.resp, k.process.todo[..n]), process := PAnswering(k.process.todo[n..])))
  {
    hide LinkOk, Wire, Answer, AnswerTo, FrameBytes, GoodRequest;
    var todo := k.process.todo;
    assert todo == todo[..n] + todo[n..];
    assert (k.resp.bytes + todo[..n]) + todo[n..] == k.resp.bytes + todo;
    WriteOk(RESULT_AT, k.resp, todo[..n]);
  }

  lemma ProcessMovesOk(run: Executor, refOf: map<nat, nat>, tasks: seq<Task>, k: Worker, p: Process)
    requires WorkerOk(run, refOf, tasks, k) && (p.PExited? || (p.PReading? && k.process == PAnswering([])))
    ensures WorkerOk(run, refOf, tasks, k.(process := p))
  {
    hide LinkOk, Wire, Answer, AnswerTo, FrameBytes, GoodRequest;
  }

  lemma ReaderStops(run: Executor, refOf: map<nat, nat>, tasks: seq<Task>, k: Worker)
    requires WorkerOk(run, refOf, tasks, k)
    ensures WorkerOk(run, refOf, tasks, k.(reader := RExited)) && WorkerOk(run, refOf, tasks, k.(reader := RReading))
  {
    hide LinkOk, Wire, Answer, AnswerTo, FrameBytes, GoodRequest;
  }

  /** The process runs the next request that was sent, and sets out to send its answer. */
  lemma ExecuteOk(run: Executor, refOf: map<nat, nat>, tasks: seq<Task>, k: Worker)
    requires WorkerOk(run, refOf, tasks, k) && GoodExecutor(run)
    requires k.process.PReading? && Needed(TASK_AT, k.req.got) == 0 && |k.req.got| >= 32
    ensures WorkerOk(run, refOf, tasks, Execute(run, k))
  {
    hide LinkOk, Wire, FrameBytes, Answer, CommandOf, TaskIdOf, ExecutorOf, Needed;
    FrameComplete(TASK_AT, k.req);
    var f := k.req.sent[k.req.taken];
    assert Frame(k.req.got[..32], k.req.got[32..]) == f && GoodRequest(refOf, tasks, f);
    if CommandOf(f) == STOP {
      ProcessMovesOk(run, refOf, tasks, k, PExited);
    } else {
      TakeOk(TASK_AT, k.req);
      var answer := Answer(TaskIdOf(f), run(ExecutorOf(f), f.body));
      AnswerDelivers(None, TaskIdOf(f), run(ExecutorOf(f), f.body));
      QueueOk(RESULT_AT, k.resp, answer);
      WireAppend(k.resp.sent, answer);
      assert k.resp.bytes + [] == k.resp.bytes;
    }
  }

  /** The answer a reader has read whole is the one to a task whose id was drawn for its reference. */
  lemma AnswerFound(run: Executor, refOf: map<nat, nat>, tasks: seq<Task>, k: Worker)
    requires WorkerOk(run, refOf, tasks, k) && GoodExecutor(run)
    requires Needed(RESULT_AT, k.resp.got) == 0 && |k.resp.got| >= 24
    ensures var f := Frame(k.resp.got[..24], k.resp.got[24..]); var id := ResultIdOf(f);
            && id in refOf && id < WORD64 && refOf[id] < |tasks|
            && f == Answer(id, run(tasks[refOf[id]].executor, tasks[refOf[id]].payload))
    ensures LinkOk(RESULT_AT, Take(k.resp))
  {
    hide LinkOk, Wire, FrameBytes, Answer, CommandOf, TaskIdOf, ExecutorOf, Needed, ResultIdOf;
    FrameComplete(RESULT_AT, k.resp);
    TakeOk(RESULT_AT, k.resp);
    var i := k.resp.taken;
    var request := k.req.sent[i];
    assert GoodRequest(refOf, tasks, request);
    AnswerDelivers(None, TaskIdOf(request), run(ExecutorOf(request), request.body));
  }

  lemma LookUpOk(run: Executor, refOf: map<nat, nat>, tasks: seq<Task>, k: Worker, reader: Reader)
    requires WorkerOk(run, refOf, tasks, k) && GoodExecutor(run)
    requires Needed(RESULT_AT, k.resp.got) == 0 && |k.resp.got| >= 24
    requires var f := Frame(k.resp.got[..24], k.resp.got[24..]);
             reader == k.reader || (ResultIdOf(f) in refOf && reader == RHolding(ResultIdOf(f), refOf[ResultIdOf(f)], f))
    ensures WorkerOk(run, refOf, tasks, k.(resp := Take(k.resp), reader := reader))
  {
    hide LinkOk, Wire, FrameBytes, Answer, AnswerTo, CommandOf, TaskIdOf, ExecutorOf, Needed, GoodRequest, ResultIdOf;
    AnswerFound(run, refOf, tasks, k);
  }

  // ---------- Steps of the whole pool ----------

  lemma StateOkSame(run: Executor, s: State, s': State, id: nat)
    requires id in s.refOf && s.refOf[id] < |s.futures| == |s.tasks| == |s.completions| && StateOk(run, s, id)
    requires s.futures <= s'.futures && s.tasks <= s'.tasks && s.completions <= s'.completions
    requires |s'.futures| == |s'.tasks| == |s'.completions|
    requires id in s'.refOf && s'.refOf[id] == s.refOf[id] && (AfterSwap(s) ==> AfterSwap(s'))
    requires (id in s.place && s.place[id] == Completed) <==> (id in s'.place && s'.place[id] == Completed)
    requires (id in s.place && s.place[id] == Abandoned) <==> (id in s'.place && s'.place[id] == Abandoned)
    ensures StateOk(run, s', id)
  {
    hide Delivery;
  }

  lemma PlacesSame(s: State, s': State)
    requires PlacesOk(s) && s'.place == s.place && s'.pending == s.pending
    requires |s'.workers| == |s.workers| && forall w :: 0 <= w < |s.workers| ==> s'.workers[w].reader == s.workers[w].reader
    requires SwappedHandlers(s'.shutdown) == SwappedHandlers(s.shutdown)
    requires forall id :: id in s.refOf ==> id in s'.refOf && s'.refOf[id] == s.refOf[id]
    ensures PlacesOk(s')
  {
  }

  lemma SubmittersSame(s: State, s': State)
    requires SubmittersOk(s) && s'.submitters == s.submitters && s'.idOf == s.idOf && s'.refOf == s.refOf
    requires s'.accepted == s.accepted && s'.place.Keys == s.place.Keys
    requires forall ref :: ref in s'.returned ==> ref in s.returned || (ref < |s.idOf| && s.idOf[ref] != 0 && s.idOf[ref] in s.accepted)
    ensures SubmittersOk(s')
  {
    assert forall id :: id in s.place <==> id in s.place.Keys;
    assert forall id :: id in s'.place <==> id in s'.place.Keys;
    forall q | 0 <= q < |s'.submitters| ensures SubmitterOk(s', q) { assert SubmitterOk(s, q); }
  }

  /** The shared states are as before, and the same tasks are completed. */
  lemma RefsSame(run: Executor, s: State, s': State)
    requires RefsOk(run, s) && s'.refOf == s.refOf && s'.idOf == s.idOf && s'.nextId == s.nextId
    requires s'.futures == s.futures && s'.tasks == s.tasks && s'.completions == s.completions
    requires AfterSwap(s) ==> AfterSwap(s')
    requires forall id :: id in s.refOf ==>
               ((id in s.place && s.place[id] == Completed) <==> (id in s'.place && s'.place[id] == Completed))
    requires forall id :: id in s.refOf ==>
               ((id in s.place && s.place[id] == Abandoned) <==> (id in s'.place && s'.place[id] == Abandoned))
    ensures RefsOk(run, s')
  {
    hide StateOk;
    forall i | i in s'.refOf ensures StateOk(run, s', i) { assert StateOk(run, s, i); StateOkSame(run, s, s', i); }
  }

  lemma WorkersSame(run: Executor, s: State, s': State)
    requires WorkersOk(run, s) && s'.workers == s.workers && s.tasks <= s'.tasks
    requires forall id :: id in s.refOf ==> id in s'.refOf && s'.refOf[id] == s.refOf[id]
    ensures WorkersOk(run, s')
  {
    hide WorkerOk;
    forall w | 0 <= w < |s'.workers| ensures WorkerOk(run, s'.refOf, s'.tasks, s'.workers[w]) {
      RequestsGrow(s.refOf, s.tasks, s'.refOf, s'.tasks, run, s.workers[w]);
    }
  }

  lemma ShutdownSame(s: State, s': State)
    requires ShutdownOk(s) && s'.shutdown == s.shutdown && s'.stopping == s.stopping
    requires |s'.workers| == |s.workers|
    requires forall w :: 0 <= w < |s.workers| && s.workers[w].reader.RExited? ==> s'.workers[w].reader.RExited?
    requires AfterSwap(s) ==> s'.accepted == s.accepted
    requires forall id :: id in s.place ==> id in s'.place
    requires forall id :: id in s.place ==>
               s'.place[id] == s.place[id] || s'.place[id] == Completed || s'.place[id] == Abandoned || !AfterSwap(s) || id !in s.accepted
    ensures ShutdownOk(s')
  {
  }

  lemma WorkersReplaced(run: Executor, s: State, w: nat, s': State)
    requires WorkersOk(run, s) && w < |s.workers| == |s'.workers| && s'.refOf == s.refOf && s'.tasks == s.tasks
    requires s'.workers == s.workers[w := s'.workers[w]] && WorkerOk(run, s.refOf, s.tasks, s'.workers[w])
    ensures WorkersOk(run, s')
  {
    hide WorkerOk;
  }

  /** A step on one worker's sockets that leaves its reader alone, or ends it. */
  lemma WorkerStepInv(run: Executor, s: State, w: nat, k: Worker)
    requires Inv(run, s) && w < |s.workers| && WorkerOk(run, s.refOf, s.tasks, k)
    requires k.reader == s.workers[w].reader || (s.workers[w].reader.RReading? && k.reader.RExited?)
    ensures Inv(run, SetWorker(s, w, k))
  {
    hide PlacesOk, RefsOk, SubmittersOk, ShutdownOk, WorkersOk, WorkerOk;
    var s' := SetWorker(s, w, k);
    PlacesReaders(s, s');
    RefsSame(run, s, s');
    SubmittersSame(s, s');
    ShutdownSame(s, s');
    WorkersReplaced(run, s, w, s');
  }

  lemma PlacesReaders(s: State, s': State)
    requires PlacesOk(s) && s' == s.(workers := s'.workers) && |s'.workers| == |s.workers|
    requires forall w :: 0 <= w < |s.workers| ==>
               s'.workers[w].reader == s.workers[w].reader || (s.workers[w].reader.RReading? && s'.workers[w].reader.RExited?)
    ensures PlacesOk(s')
  {
  }

  /** A submitting thread moves without touching what is shared. */
  lemma SubmitterStepInv(run: Executor, s: State, p: nat, pc: Submitter)
    requires Inv(run, s) && p < |s.submitters| && SubmitterOk(Go(s, p, pc), p)
    requires !pc.SMade? && !pc.SNumbered?
    ensures Inv(run, Go(s, p, pc))
  {
    hide PlacesOk, RefsOk, ShutdownOk, WorkersOk;
    var s' := Go(s, p, pc);
    PlacesSame(s, s');
    RefsSame(run, s, s');
    ShutdownSame(s, s');
    WorkersSame(run, s, s');
    forall q | 0 <= q < |s'.submitters| ensures SubmitterOk(s', q) { assert SubmitterOk(s, q); }
  }
}
