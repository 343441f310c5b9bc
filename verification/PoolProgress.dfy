/**
 When a shutdown can finish. A request that fails half-written ends its socket for good; if the Stop
 has not gone out by then it never will, the worker waits for the rest of the request, its reader for
 an end of file, and Shutdown for the reader. Short of that, Shutdown can always be brought to its end.
 */
module PoolProgress {
  import opened Bytes
  import opened PoolFraming
  import opened PoolTasks
  import opened PoolMachine
  import opened PoolSafety
  import opened PoolTheorems
  import opened PoolGraceful

  // ---------- Where the Stop is ----------

  predicate IsStop(f: Frame) {
    |f.header| == 32 && CommandOf(f) == STOP
  }

  /** Request i is a Stop and is on the socket whole. */
  ghost predicate StopIn(k: Worker, i: nat) {
    i < |k.req.sent| && IsStop(k.req.sent[i]) && |Wire(k.req.sent[..i + 1])| <= |k.req.bytes|
  }

  ghost predicate HasStop(k: Worker) {
    exists i: nat :: StopIn(k, i)
  }

  /** The Stop is on the socket, or the socket still takes it. */
  ghost predicate StopReaches(k: Worker) {
    !k.broken || HasStop(k)
  }

  ghost predicate AllReach(s: State) {
    forall w :: 0 <= w < |s.workers| ==> StopReaches(s.workers[w])
  }

  /** What is queued and written on a socket stays, and a socket given up stays so. */
  ghost predicate Extends(k: Worker, k': Worker) {
    && k.req.sent <= k'.req.sent && |k.req.bytes| <= |k'.req.bytes| && (k.broken ==> k'.broken)
  }

  lemma StopStays(k: Worker, k': Worker, i: nat)
    requires StopIn(k, i) && Extends(k, k')
    ensures StopIn(k', i)
  {
    hide Wire, CommandOf;
    assert k'.req.sent[..i + 1] == k.req.sent[..i + 1];
  }

  lemma HasStopStays(k: Worker, k': Worker)
    requires HasStop(k) && Extends(k, k')
    ensures HasStop(k')
  {
    hide StopIn, Extends;
    var i: nat :| StopIn(k, i);
    StopStays(k, k', i);
  }

  // ---------- The invariant ----------

  /** A write_mutex is held by a thread that is writing to that worker. */
  ghost predicate MutexOk(s: State, w: nat)
    requires w < |s.workers|
  {
    match s.workers[w].writer
    case Nobody => true
    case Writer(BySubmit(p), _) => p < |s.submitters| && s.submitters[p].SWriting? && s.submitters[p].w == w
    case Writer(ByShutdown, _) => s.shutdown == SendingStop(w)
  }

  /** How many workers Shutdown has sent a Stop to, or tried. */
  function Passed(d: Shutdown, n: nat): nat {
    match d
    case Running => 0
    case Stopping(i) => i
    case SendingStop(i) => i
    case _ => n
  }

  ghost predicate ShutdownAt(s: State) {
    match s.shutdown
    case Stopping(i) => i <= |s.workers|
    case SendingStop(i) =>
      && i < |s.workers| && s.workers[i].writer.Writer? && s.workers[i].writer.who == ByShutdown
      && s.workers[i].req.sent != [] && IsStop(s.workers[i].req.sent[|s.workers[i].req.sent| - 1])
    case Joining(i) => i <= |s.workers|
    case _ => true
  }

  /** A socket that was not given up when Shutdown was done with it has the Stop. */
  ghost predicate StopTried(k: Worker) {
    k.broken || HasStop(k)
  }

  ghost predicate StopsSent(s: State) {
    forall w :: 0 <= w < |s.workers| && w < Passed(s.shutdown, |s.workers|) ==> StopTried(s.workers[w])
  }

  ghost predicate ExitsAtStop(s: State) {
    forall w :: 0 <= w < |s.workers| && s.workers[w].process.PExited? ==> HasStop(s.workers[w])
  }

  /** The mutexes are held by threads that use them, and Shutdown is where its workers are. */
  ghost predicate Orderly(s: State) {
    (forall w :: 0 <= w < |s.workers| ==> MutexOk(s, w)) && ShutdownAt(s)
  }

  ghost predicate ProgressOk(s: State) {
    Orderly(s) && StopsSent(s) && ExitsAtStop(s)
  }

  lemma InitProgress(submitters: nat, workers: nat)
    ensures ProgressOk(Init(submitters, workers))
  {
  }

  // ---------- Steps ----------

  lemma ExecuteExtends(run: Executor, k: Worker)
    ensures |k.req.got| >= 32 ==>
              var k' := Execute(run, k);
              k'.req.sent == k.req.sent && k'.req.bytes == k.req.bytes && k'.broken == k.broken && k'.writer == k.writer
  {
    hide CommandOf, Answer, TaskIdOf, ExecutorOf;
  }

  lemma SubmitExtends(run: Executor, s: State, a: Action)
    requires Enabled(s, a) && BySubmitter(a)
    ensures var s' := Apply(run, s, a);
            |s'.workers| == |s.workers| && forall w :: 0 <= w < |s.workers| ==> Extends(s.workers[w], s'.workers[w])
  {
    hide RequestFrame, FrameBytes;
  }

  /** A step of a worker or its reader changes that worker alone, and nothing on its request socket but what is read. */
  lemma WorkerAlone(run: Executor, s: State, a: Action)
    requires Enabled(s, a) && ByWorker(a)
    ensures var s' := Apply(run, s, a);
            && |s'.workers| == |s.workers| && s'.submitters == s.submitters && s'.shutdown == s.shutdown
            && forall v :: 0 <= v < |s.workers| && v != a.w ==> s'.workers[v] == s.workers[v]
  {
    hide Execute, Complete, Needed, ResultIdOf, Read, Write, Take, ApplySubmit, ApplyShutdown, SubmitEnabled, ShutdownEnabled;
  }

  lemma WorkerKeepsRequests(run: Executor, s: State, a: Action)
    requires Enabled(s, a) && ByWorker(a) && !a.ProcessExits?
    ensures a.w < |s.workers| == |Apply(run, s, a).workers|
    ensures var k, k' := s.workers[a.w], Apply(run, s, a).workers[a.w];
            && k'.req.sent == k.req.sent && k'.req.bytes == k.req.bytes && k'.broken == k.broken && k'.writer == k.writer
            && (k'.process.PExited? ==>
                  k.process.PExited? || (a.ProcessExecutes? && |k.req.got| >= 32 && Execute(run, k).process.PExited?))
  {
    hide Execute, Complete, Needed, ResultIdOf, Write, Take, ApplySubmit, ApplyShutdown, SubmitEnabled, ShutdownEnabled;
    ExecuteExtends(run, s.workers[a.w]);
  }

  lemma WorkerOrderly(run: Executor, s: State, a: Action)
    requires Orderly(s) && Enabled(s, a) && ByWorker(a)
    ensures Orderly(Apply(run, s, a))
  {
    hide Apply, CommandOf;
    var s' := Apply(run, s, a);
    WorkerAlone(run, s, a);
    if a.ProcessExits? { ExitKeepsRequests(run, s, a); } else { WorkerKeepsRequests(run, s, a); }
    forall v | 0 <= v < |s'.workers| ensures MutexOk(s', v) {
      assert MutexOk(s, v);
    }
  }

  lemma ExitKeepsRequests(run: Executor, s: State, a: Action)
    requires Enabled(s, a) && a.ProcessExits?
    ensures a.w < |s.workers| == |Apply(run, s, a).workers|
    ensures Apply(run, s, a).workers[a.w] == s.workers[a.w].(process := PExited)
  {
  }

  lemma ShutdownExtends(run: Executor, s: State, a: Action)
    requires Enabled(s, a) && !BySubmitter(a) && !ByWorker(a)
    ensures var s' := Apply(run, s, a);
            |s'.workers| == |s.workers| && forall w :: 0 <= w < |s.workers| ==> Extends(s.workers[w], s'.workers[w])
  {
    hide StopFrame, FrameBytes;
  }

  lemma StopsStay(s: State, s': State)
    requires StopsSent(s) && ExitsAtStop(s) && |s'.workers| == |s.workers|
    requires forall w :: 0 <= w < |s.workers| ==> Extends(s.workers[w], s'.workers[w])
    requires forall w :: 0 <= w < |s.workers| && w < Passed(s'.shutdown, |s'.workers|) ==>
               w < Passed(s.shutdown, |s.workers|) || StopTried(s'.workers[w])
    requires forall w :: 0 <= w < |s.workers| && s'.workers[w].process.PExited? ==>
               s.workers[w].process.PExited? || HasStop(s'.workers[w])
    ensures StopsSent(s') && ExitsAtStop(s')
  {
    hide HasStop, Passed;
    forall w | 0 <= w < |s.workers| && HasStop(s.workers[w]) ensures HasStop(s'.workers[w]) {
      HasStopStays(s.workers[w], s'.workers[w]);
    }
  }

  lemma SubmitProgress(run: Executor, s: State, a: Action)
    requires ProgressOk(s) && Enabled(s, a) && BySubmitter(a)
    ensures ProgressOk(Apply(run, s, a))
  {
    hide StopsSent, ExitsAtStop, Orderly, Extends, HasStop, Apply, Enabled;
    var s' := Apply(run, s, a);
    SubmitExtends(run, s, a);
    SubmitLeaves(run, s, a);
    StopsStay(s, s');
    SubmitOrderly(run, s, a);
  }

  lemma SubmitOrderly(run: Executor, s: State, a: Action)
    requires Orderly(s) && Enabled(s, a) && BySubmitter(a)
    ensures Orderly(Apply(run, s, a))
  {
    hide MutexOk, ShutdownAt, Apply, Enabled;
    SubmitMutexes(run, s, a);
    SubmitShutdownAt(run, s, a);
  }

  lemma SubmitMutexes(run: Executor, s: State, a: Action)
    requires Enabled(s, a) && BySubmitter(a) && forall w :: 0 <= w < |s.workers| ==> MutexOk(s, w)
    ensures var s' := Apply(run, s, a); forall w :: 0 <= w < |s'.workers| ==> MutexOk(s', w)
  {
    hide RequestFrame, FrameBytes;
    var s' := Apply(run, s, a);
    forall w | 0 <= w < |s'.workers| ensures MutexOk(s', w) {
      assert MutexOk(s, w);
    }
  }

  lemma SubmitShutdownAt(run: Executor, s: State, a: Action)
    requires Enabled(s, a) && BySubmitter(a) && ShutdownAt(s) && forall w :: 0 <= w < |s.workers| ==> MutexOk(s, w)
    ensures ShutdownAt(Apply(run, s, a))
  {
    hide RequestFrame, FrameBytes, IsStop;
  }

  lemma SubmitLeaves(run: Executor, s: State, a: Action)
    requires Enabled(s, a) && BySubmitter(a)
    ensures var s' := Apply(run, s, a);
            && s'.shutdown == s.shutdown
            && forall w :: 0 <= w < |s.workers| ==> s'.workers[w].process == s.workers[w].process
  {
    hide RequestFrame, FrameBytes;
  }

  /** A worker that leaves has the Stop in front of it, whole. */
  lemma ExitHasStop(run: Executor, refOf: map<nat, nat>, tasks: seq<Task>, k: Worker)
    requires WorkerOk(run, refOf, tasks, k) && !k.process.PExited? && Needed(TASK_AT, k.req.got) == 0 && |k.req.got| >= 32
    requires Execute(run, k).process.PExited?
    ensures HasStop(k)
  {
    hide Wire, FrameBytes, Answer, CommandOf, TaskIdOf, ExecutorOf, Needed, BodySize, AnswersOk, HoldingOk;
    FrameComplete(TASK_AT, k.req);
    WireSplit(k.req.sent, k.req.taken);
    assert GoodRequest(refOf, tasks, k.req.sent[k.req.taken]);
    assert StopIn(k, k.req.taken);
  }

  lemma WorkerProgress(run: Executor, s: State, a: Action)
    requires Inv(run, s) && ProgressOk(s) && Enabled(s, a) && ByWorker(a) && !a.ProcessExits?
    ensures ProgressOk(Apply(run, s, a))
  {
    hide StopsSent, ExitsAtStop, Orderly, PlacesOk, RefsOk, SubmittersOk, ShutdownOk, WorkerOk, Execute, Complete, Needed, HasStop,
         CommandOf, LookUp, Apply;
    var s', w := Apply(run, s, a), a.w;
    WorkerAlone(run, s, a);
    WorkerKeepsRequests(run, s, a);
    assert WorkerOk(run, s.refOf, s.tasks, s.workers[w]);
    if s'.workers[w].process.PExited? && !s.workers[w].process.PExited? {
      ExitHasStop(run, s.refOf, s.tasks, s.workers[w]);
      HasStopStays(s.workers[w], s'.workers[w]);
    }
    StopsStay(s, s');
    WorkerOrderly(run, s, a);
  }

  lemma StopFrameStops()
    ensures IsStop(StopFrame())
  {
    TaskFrameRoundTrip(STOP, 0, 0, []);
  }

  /** All of the Stop is written: it is on the socket whole. */
  lemma DoneHasStop(run: Executor, refOf: map<nat, nat>, tasks: seq<Task>, k: Worker)
    requires WorkerOk(run, refOf, tasks, k) && k.writer == Writer(ByShutdown, [])
    requires k.req.sent != [] && IsStop(k.req.sent[|k.req.sent| - 1])
    ensures StopTried(k)
  {
    hide Wire, LinkOk, AnswersOk, HoldingOk, CommandOf, GoodRequest;
    if !k.broken {
      var n := |k.req.sent|;
      assert k.req.bytes + [] == k.req.bytes;
      assert k.req.sent[..n] == k.req.sent;
      assert StopIn(k, n - 1);
    }
  }

  lemma ShutdownOrderly(run: Executor, s: State, a: Action)
    requires Orderly(s) && Enabled(s, a) && !BySubmitter(a) && !ByWorker(a)
    ensures Orderly(Apply(run, s, a))
  {
    hide StopFrame, FrameBytes, CommandOf;
    StopFrameStops();
    var s' := Apply(run, s, a);
    forall w | 0 <= w < |s'.workers| ensures MutexOk(s', w) {
      assert MutexOk(s, w);
    }
  }

  lemma ShutdownProgress(run: Executor, s: State, a: Action)
    requires Inv(run, s) && ProgressOk(s) && Enabled(s, a) && !BySubmitter(a) && !ByWorker(a)
    ensures ProgressOk(Apply(run, s, a))
  {
    hide StopsSent, ExitsAtStop, PlacesOk, RefsOk, SubmittersOk, WorkerOk, StopFrame, FrameBytes, CommandOf, HasStop, Extends;
    var s' := Apply(run, s, a);
    ShutdownExtends(run, s, a);
    StopFrameStops();
    if a.StopDone? {
      var i := s.shutdown.i;
      assert MutexOk(s, i);
      assert WorkerOk(run, s.refOf, s.tasks, s.workers[i]);
      DoneHasStop(run, s.refOf, s.tasks, s.workers[i]);
      TriedStays(s.workers[i], s'.workers[i]);
    }
    StopsStay(s, s');
    ShutdownOrderly(run, s, a);
  }

  lemma TriedStays(k: Worker, k': Worker)
    requires StopTried(k) && Extends(k, k')
    ensures StopTried(k')
  {
    hide HasStop;
    if HasStop(k) { HasStopStays(k, k'); }
  }

  // ---------- Calm runs ----------

  ghost predicate Sane(run: Executor, s: State) {
    Inv(run, s) && CalmInv(s) && ProgressOk(s)
  }

  predicate CalmStepOf(a: Action) {
    !a.ProcessExits? && !a.ReaderErrs?
  }

  lemma StepSane(run: Executor, s: State, a: Action)
    requires Sane(run, s) && Enabled(s, a) && GoodExecutor(run) && CalmStepOf(a)
    ensures Sane(run, Apply(run, s, a))
  {
    hide Inv, CalmInv, ProgressOk, Apply, Enabled, GoodExecutor;
    StepInv(run, s, a);
    if BySubmitter(a) {
      SubmitCalm(run, s, a);
      SubmitProgress(run, s, a);
    } else if ByWorker(a) {
      WorkerCalm(run, s, a);
      WorkerProgress(run, s, a);
    } else {
      ShutdownCalm(run, s, a);
      ShutdownProgress(run, s, a);
    }
  }

  lemma {:induction false} RunSane(run: Executor, s: State, acts: seq<Action>)
    requires Sane(run, s) && ValidRun(run, s, acts) && GoodExecutor(run) && Calm(acts)
    ensures Sane(run, Final(run, s, acts))
    decreases |acts|
  {
    hide Sane, Apply, Enabled, GoodExecutor;
    if acts != [] {
      assert CalmStepOf(acts[0]) && Calm(acts[1..]);
      StepSane(run, s, acts[0]);
      RunSane(run, Apply(run, s, acts[0]), acts[1..]);
    }
  }

  lemma ReachedSane(run: Executor, submitters: nat, workers: nat, acts: seq<Action>) returns (s: State)
    requires GoodExecutor(run) && ValidRun(run, Init(submitters, workers), acts) && Calm(acts)
    ensures s == Final(run, Init(submitters, workers), acts) && Sane(run, s)
  {
    hide Inv, CalmInv, ProgressOk, GoodExecutor;
    InitInv(run, submitters, workers);
    InitCalm(submitters, workers);
    InitProgress(submitters, workers);
    RunSane(run, Init(submitters, workers), acts);
    s := Final(run, Init(submitters, workers), acts);
  }

  // ---------- A Stop that never arrives ----------

  ghost predicate Stuck(s: State, w: nat) {
    w < |s.workers| && s.workers[w].broken && !HasStop(s.workers[w])
  }

  /** Nothing is written to a socket given up, though threads still take its mutex. */
  ghost predicate OnlyQueued(k: Worker, k': Worker) {
    && k'.broken && k'.req.bytes == k.req.bytes
    && (k'.req.sent == k.req.sent || exists f: Frame :: |f.header| == 32 && k'.req.sent == k.req.sent + [f])
  }

  lemma BrokenOnlyQueues(run: Executor, s: State, a: Action, w: nat)
    requires Enabled(s, a) && CalmStepOf(a) && w < |s.workers| && s.workers[w].broken
    ensures |Apply(run, s, a).workers| == |s.workers| && OnlyQueued(s.workers[w], Apply(run, s, a).workers[w])
  {
    if ByWorker(a) {
      WorkerAlone(run, s, a);
      WorkerKeepsRequests(run, s, a);
    } else if BySubmitter(a) {
      SubmitOnlyQueues(run, s, a, w);
    } else {
      ShutdownOnlyQueues(run, s, a, w);
    }
  }

  lemma SubmitOnlyQueues(run: Executor, s: State, a: Action, w: nat)
    requires Enabled(s, a) && BySubmitter(a) && w < |s.workers| && s.workers[w].broken
    ensures |Apply(run, s, a).workers| == |s.workers| && OnlyQueued(s.workers[w], Apply(run, s, a).workers[w])
  {
    hide RequestFrame, FrameBytes;
    var s' := Apply(run, s, a);
    if a.LockWriter? {
      var f := RequestFrame(s.submitters[a.p].id, s.tasks[s.submitters[a.p].ref]);
      RequestHeader(s.submitters[a.p].id, s.tasks[s.submitters[a.p].ref]);
      if w == s.submitters[a.p].w {
        assert s'.workers[w].req.sent == s.workers[w].req.sent + [f];
      }
    }
  }

  lemma RequestHeader(id: nat, t: Task)
    ensures |RequestFrame(id, t).header| == 32
  {
  }

  lemma ShutdownOnlyQueues(run: Executor, s: State, a: Action, w: nat)
    requires Enabled(s, a) && !BySubmitter(a) && !ByWorker(a) && w < |s.workers| && s.workers[w].broken
    ensures |Apply(run, s, a).workers| == |s.workers| && OnlyQueued(s.workers[w], Apply(run, s, a).workers[w])
  {
    hide StopFrame, FrameBytes, CommandOf;
    var s' := Apply(run, s, a);
    if a.StopLocks? {
      StopFrameStops();
      if w == s.shutdown.i {
        assert s'.workers[w].req.sent == s.workers[w].req.sent + [StopFrame()];
      }
    }
  }

  /** A frame queued and not written is not on the socket whole. */
  lemma QueuedIsNotThere(k: Worker, k': Worker)
    requires LinkOk(TASK_AT, k.req) && OnlyQueued(k, k') && HasStop(k')
    ensures HasStop(k)
  {
    hide Wire, CommandOf, BodySize;
    var i: nat :| StopIn(k', i);
    if k'.req.sent != k.req.sent {
      var f: Frame :| |f.header| == 32 && k'.req.sent == k.req.sent + [f];
      if i == |k.req.sent| {
        assert k'.req.sent[..i + 1] == k.req.sent + [f];
        WireAppend(k.req.sent, f);
        assert false;
      }
    }
    assert k'.req.sent[..i + 1] == k.req.sent[..i + 1];
    assert StopIn(k, i);
  }

  lemma StuckStays(run: Executor, s: State, a: Action, w: nat)
    requires Inv(run, s) && Stuck(s, w) && Enabled(s, a) && CalmStepOf(a)
    ensures Stuck(Apply(run, s, a), w)
  {
    hide PlacesOk, RefsOk, SubmittersOk, ShutdownOk, Apply, Enabled, LinkOk, AnswersOk, HoldingOk, HasStop, GoodRequest, Wire;
    var s' := Apply(run, s, a);
    BrokenOnlyQueues(run, s, a, w);
    assert WorkerOk(run, s.refOf, s.tasks, s.workers[w]);
    if HasStop(s'.workers[w]) {
      QueuedIsNotThere(s.workers[w], s'.workers[w]);
      assert false;
    }
  }

  lemma StuckIsNotFinished(run: Executor, s: State, w: nat)
    requires Sane(run, s) && Stuck(s, w)
    ensures !s.shutdown.Finished?
  {
    hide WorkersOk, PlacesOk, RefsOk, SubmittersOk, HasStop, TakenAreServed, SentAreAccepted, Orderly, StopsSent, Wire;
    assert CalmWorker(s.accepted, s.place, s.workers[w]);
  }

  /** The worker waits for the rest of a frame for ever, and Shutdown for its reader. */
  lemma {:induction false} StuckForever(run: Executor, s: State, w: nat, acts: seq<Action>)
    requires Sane(run, s) && Stuck(s, w) && ValidRun(run, s, acts) && GoodExecutor(run) && Calm(acts)
    ensures !Final(run, s, acts).shutdown.Finished?
    decreases |acts|
  {
    hide Inv, CalmInv, ProgressOk, Stuck, Apply, Enabled, GoodExecutor;
    if acts == [] {
      StuckIsNotFinished(run, s, w);
    } else {
      assert CalmStepOf(acts[0]) && Calm(acts[1..]);
      StuckStays(run, s, acts[0], w);
      StepSane(run, s, acts[0]);
      StuckForever(run, Apply(run, s, acts[0]), w, acts[1..]);
    }
  }
}
