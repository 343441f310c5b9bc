/**
 What a shutdown owes to tasks already queued. In a run where no worker dies and no reader meets an
 error, a worker leaves only at a Stop and its reader only at the end of all answers; so every
 task whose request went out ahead of the Stop has been executed and its future holds the result.
 */
module PoolGraceful {
  import opened Options
  import opened Bytes
  import opened PoolFraming
  import opened PoolTasks
  import opened PoolMachine
  import opened PoolSafety
  import opened PoolSteps
  import opened PoolTheorems

  /** No worker process dies and no read of a reader fails. Writes may fail all the same. */
  predicate Calm(acts: seq<Action>) {
    forall i :: 0 <= i < |acts| ==> !acts[i].ProcessExits? && !acts[i].ReaderErrs?
  }

  /** The handler of `id` has been taken by a reader. */
  predicate Served(place: map<nat, Place>, id: nat) {
    id in place && (place[id].WithReader? || place[id] == Completed)
  }

  predicate IsTask(f: Frame) {
    |f.header| == 32 && CommandOf(f) != STOP
  }

  /** The process leaves only at a Stop, having sent all its answers; the reader only after the last answer. */
  ghost predicate LeavesInOrder(k: Worker) {
    && (k.process.PExited? ==>
          k.req.taken < |k.req.sent| && |k.req.sent[k.req.taken].header| == 32 && CommandOf(k.req.sent[k.req.taken]) == STOP)
    && k.resp.bytes + Unsent(k.process) == Wire(k.resp.sent)
    && (k.reader.RExited? ==> k.process.PExited? && k.resp.taken == |k.resp.sent|)
  }

  ghost predicate TakenAreServed(place: map<nat, Place>, k: Worker) {
    forall i :: 0 <= i < k.resp.taken && i < |k.req.sent| && IsTask(k.req.sent[i]) ==>
      Served(place, TaskIdOf(k.req.sent[i]))
  }

  ghost predicate SentAreAccepted(accepted: set<nat>, k: Worker) {
    forall i :: 0 <= i < |k.req.sent| && IsTask(k.req.sent[i]) ==> TaskIdOf(k.req.sent[i]) in accepted
  }

  ghost predicate CalmWorker(accepted: set<nat>, place: map<nat, Place>, k: Worker) {
    LeavesInOrder(k) && TakenAreServed(place, k) && SentAreAccepted(accepted, k)
  }

  ghost predicate NothingSwapped(s: State) {
    !AfterSwap(s) ==> forall id :: id in s.place ==> s.place[id] != SwappedOut && s.place[id] != Abandoned
  }

  ghost predicate CalmInv(s: State) {
    && (forall w :: 0 <= w < |s.workers| ==> CalmWorker(s.accepted, s.place, s.workers[w]))
    && NothingSwapped(s)
  }

  // ---------- One worker ----------

  lemma CalmGrows(accepted: set<nat>, place: map<nat, Place>, k: Worker, accepted': set<nat>, place': map<nat, Place>)
    requires CalmWorker(accepted, place, k) && accepted <= accepted'
    requires forall id :: Served(place, id) ==> Served(place', id)
    ensures CalmWorker(accepted', place', k)
  {
    hide Served, LeavesInOrder, IsTask, TaskIdOf;
  }

  /** A writer queues a frame, writes, or lets go: nothing the other end has seen changes. */
  lemma CalmWrites(accepted: set<nat>, place: map<nat, Place>, k: Worker, k': Worker)
    requires CalmWorker(accepted, place, k)
    requires k' == k.(req := k'.req, writer := k'.writer, broken := k'.broken)
    requires k'.req == k.req.(sent := k'.req.sent, bytes := k'.req.bytes, read := k'.req.read, got := k'.req.got)
    requires k.resp.taken <= |k.req.sent|
    requires k'.req.sent == k.req.sent
             || exists f :: k'.req.sent == k.req.sent + [f] && (IsTask(f) ==> TaskIdOf(f) in accepted)
    ensures CalmWorker(accepted, place, k')
  {
    hide Served, IsTask, TaskIdOf, CommandOf, Wire;
  }

  lemma CalmExecutes(run: Executor, refOf: map<nat, nat>, tasks: seq<Task>, accepted: set<nat>, place: map<nat, Place>, k: Worker)
    requires WorkerOk(run, refOf, tasks, k) && CalmWorker(accepted, place, k) && GoodExecutor(run)
    requires k.process.PReading? && Needed(TASK_AT, k.req.got) == 0 && |k.req.got| >= 32
    ensures CalmWorker(accepted, place, Execute(run, k))
  {
    hide LinkOk, Wire, FrameBytes, Answer, CommandOf, TaskIdOf, ExecutorOf, Needed, Served, IsTask;
    FrameComplete(TASK_AT, k.req);
    var f := k.req.sent[k.req.taken];
    assert Frame(k.req.got[..32], k.req.got[32..]) == f && GoodRequest(refOf, tasks, f);
    assert k.resp.bytes + [] == k.resp.bytes;
    if CommandOf(f) != STOP {
      WireAppend(k.resp.sent, Answer(TaskIdOf(f), run(ExecutorOf(f), f.body)));
    }
  }

  lemma CalmAnswers(accepted: set<nat>, place: map<nat, Place>, k: Worker, n: nat)
    requires CalmWorker(accepted, place, k) && k.process.PAnswering? && n <= |k.process.todo|
    ensures CalmWorker(accepted, place, k.(resp := Write(k.resp, k.process.todo[..n]), process := PAnswering(k.process.todo[n..])))
    ensures k.process.todo == [] ==> CalmWorker(accepted, place, k.(process := PReading))
  {
    hide Served, IsTask, TaskIdOf, CommandOf, Wire;
    var todo := k.process.todo;
    assert todo == todo[..n] + todo[n..];
    assert (k.resp.bytes + todo[..n]) + todo[n..] == k.resp.bytes + todo;
  }

  /** At the end of the stream a reader between two frames has taken every answer there was. */
  lemma EofIsTheEnd(at: nat, l: Link)
    requires LinkOk(at, l) && l.bytes == Wire(l.sent) && l.read == |l.bytes| && Needed(at, l.got) > 0
    ensures l.taken == |l.sent|
  {
    hide FrameBytes, Wire, Needed, BodySize;
    if l.taken < |l.sent| {
      WireSplit(l.sent, l.taken);
      assert |l.got| >= |FrameBytes(l.sent[l.taken])|;
      FrameIsNonempty(at, l.sent[l.taken]);
      NeededOfPrefix(at, l.sent[l.taken], l.got);
    }
  }

  lemma FrameIsNonempty(at: nat, f: Frame)
    requires WellFramed(at, f)
    ensures |FrameBytes(f)| >= at + 8
  {
  }

  lemma CalmEof(run: Executor, accepted: set<nat>, place: map<nat, Place>, k: Worker)
    requires AnswersOk(run, k) && CalmWorker(accepted, place, k)
    requires Needed(RESULT_AT, k.resp.got) > 0 && k.process.PExited? && k.resp.read == |k.resp.bytes|
    ensures CalmWorker(accepted, place, k.(reader := RExited))
  {
    hide Served, IsTask, TaskIdOf, CommandOf, Wire, LinkOk, Needed;
    assert k.resp.bytes + [] == k.resp.bytes;
    EofIsTheEnd(RESULT_AT, k.resp);
  }

  /** The frame a reader has read whole answers the request it has reached. */
  lemma AnswerMatchesRequest(run: Executor, refOf: map<nat, nat>, tasks: seq<Task>, k: Worker)
    requires WorkerOk(run, refOf, tasks, k) && GoodExecutor(run)
    requires Needed(RESULT_AT, k.resp.got) == 0 && |k.resp.got| >= 24
    ensures k.resp.taken < |k.resp.sent| == k.req.taken <= |k.req.sent| && IsTask(k.req.sent[k.resp.taken])
    ensures TaskIdOf(k.req.sent[k.resp.taken]) == ResultIdOf(Frame(k.resp.got[..24], k.resp.got[24..]))
  {
    hide LinkOk, Wire, FrameBytes, Answer, CommandOf, TaskIdOf, ExecutorOf, Needed, ResultIdOf;
    FrameComplete(RESULT_AT, k.resp);
    var request := k.req.sent[k.resp.taken];
    assert GoodRequest(refOf, tasks, request);
    AnswerDelivers(None, TaskIdOf(request), run(ExecutorOf(request), request.body));
  }

  lemma CalmTakes(accepted: set<nat>, place: map<nat, Place>, k: Worker, reader: Reader)
    requires CalmWorker(accepted, place, k) && !reader.RExited?
    requires k.resp.taken < |k.req.sent| && IsTask(k.req.sent[k.resp.taken])
    requires Served(place, TaskIdOf(k.req.sent[k.resp.taken]))
    ensures CalmWorker(accepted, place, k.(resp := Take(k.resp), reader := reader))
  {
    hide Served, IsTask, TaskIdOf, CommandOf, Wire;
  }

  // ---------- The whole pool ----------

  /** All but one worker stay, and what was served or accepted stays so. */
  lemma CalmStep(s: State, s': State, w: nat)
    requires CalmInv(s) && NothingSwapped(s') && |s'.workers| == |s.workers|
    requires s.accepted <= s'.accepted && forall id :: Served(s.place, id) ==> Served(s'.place, id)
    requires forall v :: 0 <= v < |s.workers| && v != w ==> s'.workers[v] == s.workers[v]
    requires w < |s.workers| ==> CalmWorker(s'.accepted, s'.place, s'.workers[w])
    ensures CalmInv(s')
  {
    hide CalmWorker, Served, NothingSwapped;
    forall v | 0 <= v < |s'.workers| ensures CalmWorker(s'.accepted, s'.place, s'.workers[v]) {
      if v != w {
        CalmGrows(s.accepted, s.place, s.workers[v], s'.accepted, s'.place);
      }
    }
  }

  /** A request carries the id its thread drew. */
  lemma RequestHasId(s: State, p: nat)
    requires p < |s.submitters| && SubmitterOk(s, p) && s.submitters[p].SChosen?
    requires s.submitters[p].ref < |s.tasks| && s.submitters[p].id < WORD64
    requires s.tasks[s.submitters[p].ref].executor < WORD64 && |s.tasks[s.submitters[p].ref].payload| < WORD64
    ensures var f := RequestFrame(s.submitters[p].id, s.tasks[s.submitters[p].ref]);
            IsTask(f) && TaskIdOf(f) == s.submitters[p].id
  {
    var pc := s.submitters[p];
    var t := s.tasks[pc.ref];
    TaskFrameRoundTrip(RUN, pc.id, t.executor, t.payload);
  }

  lemma SubmitCalm(run: Executor, s: State, a: Action)
    requires Inv(run, s) && CalmInv(s) && Enabled(s, a) && BySubmitter(a)
    ensures CalmInv(Apply(run, s, a))
  {
    if a.LockWriter? || a.SubmitWrites? || a.SubmitFails? || a.SubmitReturns? { SendingCalm(run, s, a); }
    else { PreparingCalm(run, s, a); }
  }

  lemma PreparingCalm(run: Executor, s: State, a: Action)
    requires Inv(run, s) && CalmInv(s) && Enabled(s, a)
    requires a.MakeState? || a.DrawId? || a.Register? || a.TestStopping?
    ensures CalmInv(Apply(run, s, a))
  {
    hide WorkersOk, RefsOk, PlacesOk, ShutdownOk, CalmWorker;
    assert SubmitterOk(s, a.p);
    CalmStep(s, Apply(run, s, a), |s.workers|);
  }

  lemma SendingCalm(run: Executor, s: State, a: Action)
    requires Inv(run, s) && CalmInv(s) && Enabled(s, a)
    requires a.LockWriter? || a.SubmitWrites? || a.SubmitFails? || a.SubmitReturns?
    ensures CalmInv(Apply(run, s, a))
  {
    hide WorkerOk, StateOk, PlacesOk, ShutdownOk, CalmWorker, RequestFrame, IsTask, TaskIdOf;
    var s', pc := Apply(run, s, a), s.submitters[a.p];
    var k := s.workers[pc.w];
    assert SubmitterOk(s, a.p);
    assert WorkerOk(run, s.refOf, s.tasks, k);
    TakenInside(run, s.refOf, s.tasks, k);
    if a.LockWriter? {
      RequestHasId(s, a.p);
      var f := RequestFrame(pc.id, s.tasks[pc.ref]);
      assert s'.workers[pc.w].req.sent == k.req.sent + [f];
    }
    CalmWrites(s.accepted, s.place, k, s'.workers[pc.w]);
    CalmStep(s, s', pc.w);
  }

  lemma TakenInside(run: Executor, refOf: map<nat, nat>, tasks: seq<Task>, k: Worker)
    requires WorkerOk(run, refOf, tasks, k)
    ensures k.resp.taken <= |k.resp.sent| == k.req.taken <= |k.req.sent|
  {
    hide Wire;
  }

  lemma LookUpCalm(run: Executor, s: State, w: nat)
    requires Inv(run, s) && CalmInv(s) && WorkerEnabled(s, ReaderLooksUp(w), w) && GoodExecutor(run)
    ensures CalmInv(LookUp(s, w))
  {
    hide WorkerOk, StateOk, RefsOk, ResultIdOf, Needed, CalmWorker, IsTask, TaskIdOf, Take;
    var k := s.workers[w];
    var f := Frame(k.resp.got[..24], k.resp.got[24..]);
    var id := ResultIdOf(f);
    assert WorkerOk(run, s.refOf, s.tasks, k) && CalmWorker(s.accepted, s.place, k);
    AnswerMatchesRequest(run, s.refOf, s.tasks, k);
    AcceptedRequest(s.accepted, s.place, k, k.resp.taken);
    LiveReaderPrecedesSwap(s, w);
    var s' := LookUp(s, w);
    assert id in s.place;
    assert Served(s'.place, id);
    CalmGrows(s.accepted, s.place, k, s'.accepted, s'.place);
    CalmTakes(s'.accepted, s'.place, k, s'.workers[w].reader);
    CalmStep(s, s', w);
  }

  lemma AcceptedRequest(accepted: set<nat>, place: map<nat, Place>, k: Worker, i: nat)
    requires CalmWorker(accepted, place, k) && i < |k.req.sent| && IsTask(k.req.sent[i])
    ensures TaskIdOf(k.req.sent[i]) in accepted
  {
  }

  lemma CompletesCalm(run: Executor, s: State, w: nat)
    requires Inv(run, s) && CalmInv(s) && WorkerEnabled(s, ReaderCompletes(w), w)
    ensures CalmInv(ApplyWorker(run, s, ReaderCompletes(w), w))
  {
    hide WorkerOk, StateOk, RefsOk, SubmittersOk, CalmWorker, Complete;
    var k := s.workers[w];
    var s' := ApplyWorker(run, s, ReaderCompletes(w), w);
    assert s.place[k.reader.id] == WithReader(w);
    LiveReaderPrecedesSwap(s, w);
    CalmGrows(s.accepted, s.place, k, s'.accepted, s'.place);
    ReaderGoesOn(s'.accepted, s'.place, k);
    CalmStep(s, s', w);
  }

  lemma ReaderGoesOn(accepted: set<nat>, place: map<nat, Place>, k: Worker)
    requires CalmWorker(accepted, place, k)
    ensures CalmWorker(accepted, place, k.(reader := RReading))
  {
    hide Served, IsTask, TaskIdOf, CommandOf, Wire;
  }

  lemma ReaderReadsCalm(accepted: set<nat>, place: map<nat, Place>, k: Worker, n: nat)
    requires CalmWorker(accepted, place, k) && k.resp.read + n <= |k.resp.bytes|
    ensures CalmWorker(accepted, place, k.(resp := Read(k.resp, n)))
  {
    hide Served, IsTask, TaskIdOf, CommandOf, Wire;
  }

  lemma WorkerCalm(run: Executor, s: State, a: Action)
    requires Inv(run, s) && CalmInv(s) && Enabled(s, a) && ByWorker(a) && GoodExecutor(run)
    requires !a.ProcessExits? && !a.ReaderErrs?
    ensures CalmInv(Apply(run, s, a))
  {
    hide PlacesOk, RefsOk, SubmittersOk, ShutdownOk, WorkerOk, Execute, Needed, CalmWorker, LookUp, Complete, Settle, Write,
         GoodExecutor, ApplySubmit, ApplyShutdown, SubmitEnabled, ShutdownEnabled;
    var w := a.w;
    var k := s.workers[w];
    assert WorkerOk(run, s.refOf, s.tasks, k) && CalmWorker(s.accepted, s.place, k);
    TakenInside(run, s.refOf, s.tasks, k);
    match a
    case ReaderLooksUp(_) => LookUpCalm(run, s, w);
    case ReaderCompletes(_) => CompletesCalm(run, s, w);
    case ProcessReads(_, n) =>
      CalmWrites(s.accepted, s.place, k, k.(req := Read(k.req, n)));
      CalmStep(s, Apply(run, s, a), w);
    case ProcessExecutes(_) =>
      CalmExecutes(run, s.refOf, s.tasks, s.accepted, s.place, k);
      CalmStep(s, Apply(run, s, a), w);
    case ProcessWrites(_, n) =>
      CalmAnswers(s.accepted, s.place, k, n);
      CalmStep(s, Apply(run, s, a), w);
    case ProcessAnswered(_) =>
      CalmAnswers(s.accepted, s.place, k, 0);
      CalmStep(s, Apply(run, s, a), w);
    case ReaderReads(_, n) =>
      ReaderReadsCalm(s.accepted, s.place, k, n);
      CalmStep(s, Apply(run, s, a), w);
    case ReaderSeesEof(_) =>
      AnswersOfWorker(run, s.refOf, s.tasks, k);
      CalmEof(run, s.accepted, s.place, k);
      CalmStep(s, Apply(run, s, a), w);
  }

  lemma AnswersOfWorker(run: Executor, refOf: map<nat, nat>, tasks: seq<Task>, k: Worker)
    requires WorkerOk(run, refOf, tasks, k)
    ensures AnswersOk(run, k)
  {
  }

  lemma StopIsNoTask()
    ensures !IsTask(StopFrame())
  {
    TaskFrameRoundTrip(STOP, 0, 0, []);
  }

  lemma ShutdownCalm(run: Executor, s: State, a: Action)
    requires Inv(run, s) && CalmInv(s) && Enabled(s, a) && !BySubmitter(a) && !ByWorker(a)
    ensures CalmInv(Apply(run, s, a))
  {
    hide RefsOk, SubmittersOk, WorkerOk, CalmWorker, StopFrame, IsTask, TaskIdOf;
    var s' := Apply(run, s, a);
    if a.StopLocks? || a.StopWrites? || a.StopDone? || a.StopFails? {
      var i := s.shutdown.i;
      var k := s.workers[i];
      assert WorkerOk(run, s.refOf, s.tasks, k);
      TakenInside(run, s.refOf, s.tasks, k);
      if a.StopLocks? {
        StopIsNoTask();
        assert s'.workers[i].req.sent == k.req.sent + [StopFrame()];
      }
      CalmWrites(s.accepted, s.place, k, s'.workers[i]);
      CalmStep(s, s', i);
    } else if a.Closes? {
      forall v | 0 <= v < |s'.workers| ensures CalmWorker(s'.accepted, s'.place, s'.workers[v]) {
        assert WorkerOk(run, s.refOf, s.tasks, s.workers[v]);
        TakenInside(run, s.refOf, s.tasks, s.workers[v]);
        CalmWrites(s.accepted, s.place, s.workers[v], s'.workers[v]);
      }
    } else {
      assert a.FailsOne? ==> a.id in SwappedHandlers(s.shutdown);
      CalmStep(s, s', |s.workers|);
    }
  }

  lemma InitCalm(submitters: nat, workers: nat)
    ensures CalmInv(Init(submitters, workers))
  {
  }

  lemma {:induction false} RunCalm(run: Executor, s: State, acts: seq<Action>)
    requires Inv(run, s) && CalmInv(s) && ValidRun(run, s, acts) && GoodExecutor(run) && Calm(acts)
    ensures CalmInv(Final(run, s, acts))
    decreases |acts|
  {
    hide Inv, CalmInv, Apply, Enabled, GoodExecutor;
    if acts != [] {
      var a := acts[0];
      StepInv(run, s, a);
      if BySubmitter(a) { SubmitCalm(run, s, a); }
      else if ByWorker(a) { WorkerCalm(run, s, a); }
      else { ShutdownCalm(run, s, a); }
      RunCalm(run, Apply(run, s, a), acts[1..]);
    }
  }

  /**
   Graceful shutdown: if no worker dies and no reader meets an error, then once Shutdown has returned
   every task whose request lies ahead of the first Stop on its worker's socket has been executed,
   and its future holds what its executor left; none of them was failed by the shutdown.
   */
  lemma QueuedTasksFinish(run: Executor, submitters: nat, workers: nat, acts: seq<Action>, w: nat, i: nat)
    requires GoodExecutor(run) && ValidRun(run, Init(submitters, workers), acts) && Calm(acts)
    requires var s := Final(run, Init(submitters, workers), acts);
             && s.shutdown.Finished? && w < |s.workers| && i < |s.workers[w].req.sent|
             && forall j :: 0 <= j <= i ==> IsTask(s.workers[w].req.sent[j])
    ensures var s := Final(run, Init(submitters, workers), acts);
            var id := TaskIdOf(s.workers[w].req.sent[i]);
            && id in s.refOf && s.refOf[id] < |s.futures| == |s.tasks|
            && var t := s.tasks[s.refOf[id]];
               s.futures[s.refOf[id]] == Delivery(t.resultSize, run(t.executor, t.payload))
  {
    hide WorkerOk, TaskIdOf, CommandOf, Delivery, Wire;
    var s := Reached(run, submitters, workers, acts);
    InitInv(run, submitters, workers);
    InitCalm(submitters, workers);
    RunCalm(run, Init(submitters, workers), acts);
    var k := s.workers[w];
    assert WorkerOk(run, s.refOf, s.tasks, k) && CalmWorker(s.accepted, s.place, k);
    TakenInside(run, s.refOf, s.tasks, k);
    assert k.reader.RExited?;
    var id := TaskIdOf(k.req.sent[i]);
    assert i < k.req.taken;
    assert Served(s.place, id);
    assert s.place[id] == Completed;
    assert StateOk(run, s, id);
  }
}
