/**
 What the pool still has to do, as one number: bytes to write and to read, requests to execute,
 answers to deliver, the steps of threads under way. Every step lowers it, except making a new task.
 */
module PoolWork {
  import opened Bytes
  import opened Sums
  import opened PoolFraming
  import opened PoolTasks
  import opened PoolMachine
  import opened PoolSafety
  import opened PoolTheorems

  function Excess(a: nat, b: nat): nat { if a > b then a - b else 0 }

  /** Bytes count twice until they are written, once until they are read. */
  function ResultWork(run: Executor, f: Frame): nat {
    if |f.header| != 32 || CommandOf(f) == STOP then 0 else 4 + 2 * |FrameBytes(AnswerTo(run, f))|
  }

  function ByFrame(run: Executor): Frame -> nat {
    f => ResultWork(run, f)
  }

  function Untaken(l: Link): seq<Frame> {
    if l.taken <= |l.sent| then l.sent[l.taken..] else []
  }

  ghost function RequestsWork(run: Executor, k: Worker): nat {
    2 * |Todo(k.writer)| + Excess(|k.req.bytes|, k.req.read) + Sum(Untaken(k.req), ByFrame(run))
  }

  function AnswersWork(k: Worker): nat {
    Excess(|k.resp.bytes|, k.resp.read) + 2 * Excess(|k.resp.sent|, k.resp.taken)
  }

  function ProcessWork(p: Process): nat {
    match p
    case PReading => 1
    case PAnswering(todo) => 2 + 2 * |todo|
    case PExited => 0
  }

  function ReaderWork(r: Reader): nat {
    match r
    case RReading => 1
    case RHolding(_, _, _) => 2
    case RExited => 0
  }

  ghost function WorkerWork(run: Executor, k: Worker): nat {
    RequestsWork(run, k) + AnswersWork(k) + ProcessWork(k.process) + ReaderWork(k.reader)
  }

  ghost function ByWorkers(run: Executor): Worker -> nat {
    k => WorkerWork(run, k)
  }

  /** All that a task costs from the mutex of its worker on. */
  function TaskWork(run: Executor, t: Task): nat {
    2 * (32 + |t.payload|) + 4 + 2 * |FrameBytes(Answer(0, run(t.executor, t.payload)))|
  }

  function RefWork(run: Executor, tasks: seq<Task>, ref: nat): nat {
    if ref < |tasks| then TaskWork(run, tasks[ref]) else 0
  }

  function SubmitterWork(run: Executor, tasks: seq<Task>, pc: Submitter): nat {
    match pc
    case SIdle => 0
    case SMade(ref) => 6 + RefWork(run, tasks, ref)
    case SNumbered(ref, _) => 5 + RefWork(run, tasks, ref)
    case SRegistered(ref, _) => 3 + RefWork(run, tasks, ref)
    case SChosen(ref, _, _) => 2 + RefWork(run, tasks, ref)
    case SWriting(_, _, _) => 1
  }

  function BySubmitters(run: Executor, tasks: seq<Task>): Submitter -> nat {
    pc => SubmitterWork(run, tasks, pc)
  }

  function ShutdownWork(d: Shutdown, n: nat): nat {
    match d
    case Running => 66 * n + n + 6
    case Stopping(i) => 66 * Excess(n, i) + n + 5
    case SendingStop(i) => 66 * Excess(n, i + 1) + n + 6
    case Joining(i) => Excess(n, i) + 3
    case Swapping => 2
    case Failing(todo) => |todo| + 1
    case Finished => 0
  }

  ghost function Work(run: Executor, s: State): nat {
    Sum(s.submitters, BySubmitters(run, s.tasks)) + Sum(s.workers, ByWorkers(run)) + |s.pending|
    + ShutdownWork(s.shutdown, |s.workers|)
  }

  // ---------- One worker ----------

  lemma {:induction false} SumAppend<T>(s: seq<T>, x: T, f: T -> nat)
    ensures Sum(s + [x], f) == Sum(s, f) + f(x)
  {
    if s == [] {
      assert s + [x] == [x] && [x][1..] == [];
    } else {
      assert (s + [x])[0] == s[0] && (s + [x])[1..] == s[1..] + [x];
      SumAppend(s[1..], x, f);
    }
  }

  lemma LockWork(run: Executor, k: Worker, who: Who, f: Frame)
    requires k.writer.Nobody? && k.req.taken <= |k.req.sent|
    ensures WorkerWork(run, Lock(k, who, f)) == WorkerWork(run, k) + 2 * |FrameBytes(f)| + ResultWork(run, f)
  {
    hide ResultWork, FrameBytes;
    assert Untaken(Lock(k, who, f).req) == Untaken(k.req) + [f];
    SumAppend(Untaken(k.req), f, ByFrame(run));
  }

  lemma WritePieceWork(run: Executor, k: Worker, n: nat)
    requires k.writer.Writer? && 0 < n <= |k.writer.todo|
    ensures WorkerWork(run, WritePiece(k, n)) < WorkerWork(run, k)
  {
    hide ResultWork;
    assert Untaken(WritePiece(k, n).req) == Untaken(k.req);
  }

  lemma ReleaseWork(run: Executor, k: Worker)
    ensures WorkerWork(run, Break(k)) <= WorkerWork(run, k)
    ensures WorkerWork(run, k.(writer := Nobody)) <= WorkerWork(run, k)
  {
    hide ResultWork;
  }

  lemma ReadsWork(run: Executor, k: Worker, n: nat)
    requires n > 0
    ensures k.req.read + n <= |k.req.bytes| ==> WorkerWork(run, k.(req := Read(k.req, n))) < WorkerWork(run, k)
    ensures k.resp.read + n <= |k.resp.bytes| ==> WorkerWork(run, k.(resp := Read(k.resp, n))) < WorkerWork(run, k)
  {
    hide ResultWork;
    if k.req.read + n <= |k.req.bytes| {
      assert Untaken(Read(k.req, n)) == Untaken(k.req);
    }
  }

  /** A request taken off becomes an answer to write, to read and to deliver. */
  lemma ExecuteWork(run: Executor, refOf: map<nat, nat>, tasks: seq<Task>, k: Worker)
    requires WorkerOk(run, refOf, tasks, k) && k.process.PReading? && Needed(TASK_AT, k.req.got) == 0 && |k.req.got| >= 32
    ensures WorkerWork(run, Execute(run, k)) < WorkerWork(run, k)
  {
    hide Wire, FrameBytes, Needed, Answer, CommandOf, TaskIdOf, ExecutorOf, GoodRequest, HoldingOk;
    FrameComplete(TASK_AT, k.req);
    var f, k' := k.req.sent[k.req.taken], Execute(run, k);
    assert Frame(k.req.got[..32], k.req.got[32..]) == f;
    if CommandOf(f) != STOP {
      assert Untaken(k.req)[0] == f && Untaken(k'.req) == Untaken(k.req)[1..];
      assert Sum(Untaken(k.req), ByFrame(run)) == ResultWork(run, f) + Sum(Untaken(k'.req), ByFrame(run));
    }
  }

  lemma AnswerWork(run: Executor, k: Worker, n: nat)
    requires k.process.PAnswering?
    ensures 0 < n <= |k.process.todo| ==>
              WorkerWork(run, k.(resp := Write(k.resp, k.process.todo[..n]), process := PAnswering(k.process.todo[n..])))
              < WorkerWork(run, k)
    ensures WorkerWork(run, k.(process := PReading)) < WorkerWork(run, k)
  {
    hide ResultWork;
  }

  // ---------- Sizes of requests ----------

  lemma AnswerSize(id: nat, other: nat, e: Executed)
    ensures |FrameBytes(Answer(id, e))| == |FrameBytes(Answer(other, e))|
  {
    hide Le;
  }

  lemma RequestWork(run: Executor, id: nat, t: Task)
    requires id < WORD64 && t.executor < WORD64 && |t.payload| < WORD64
    ensures 2 * |FrameBytes(RequestFrame(id, t))| + ResultWork(run, RequestFrame(id, t)) == TaskWork(run, t)
  {
    hide Answer, CommandOf, TaskIdOf, ExecutorOf;
    TaskFrameRoundTrip(RUN, id, t.executor, t.payload);
    AnswerSize(id, 0, run(t.executor, t.payload));
  }

  lemma StopWork(run: Executor)
    ensures |FrameBytes(StopFrame())| == 32 && ResultWork(run, StopFrame()) == 0
  {
    hide CommandOf;
    TaskFrameRoundTrip(STOP, 0, 0, []);
  }

  // ---------- Steps ----------

  /** A step of Submit that leaves the workers alone. */
  lemma SubmitFalls(run: Executor, s: State, a: Action, p: nat)
    requires SubmitEnabled(s, a, p) && (a.DrawId? || a.Register? || a.TestStopping?)
    ensures Work(run, ApplySubmit(s, a, p)) < Work(run, s)
  {
    hide RefWork;
    var s' := ApplySubmit(s, a, p);
    SumUpdate(s.submitters, p, s'.submitters[p], BySubmitters(run, s.tasks));
    if a.Register? {
      InsertSize(s.pending, s.submitters[p].id, s.submitters[p].ref);
    }
  }

  lemma InsertSize(m: map<nat, nat>, k: nat, v: nat)
    ensures |m[k := v]| <= |m| + 1
  {
    if k in m {
      assert m[k := v].Keys == m.Keys;
    } else {
      assert m[k := v].Keys == m.Keys + {k};
    }
    KeysSize(m);
    KeysSize(m[k := v]);
  }

  lemma KeysSize(m: map<nat, nat>)
    ensures |m| == |m.Keys|
  {
  }

  /** One worker and one submitting thread move. */
  lemma BothMove(run: Executor, s: State, p: nat, pc: Submitter, w: nat, k: Worker)
    requires p < |s.submitters| && w < |s.workers|
    ensures var s' := Go(SetWorker(s, w, k), p, pc);
            Work(run, s') + SubmitterWork(run, s.tasks, s.submitters[p]) + WorkerWork(run, s.workers[w])
            == Work(run, s) + SubmitterWork(run, s.tasks, pc) + WorkerWork(run, k)
  {
    hide SubmitterWork, WorkerWork;
    SumUpdate(s.submitters, p, pc, BySubmitters(run, s.tasks));
    SumUpdate(s.workers, w, k, ByWorkers(run));
  }

  lemma LockFalls(run: Executor, s: State, p: nat)
    requires Inv(run, s) && SubmitEnabled(s, LockWriter(p), p)
    ensures Work(run, ApplySubmit(s, LockWriter(p), p)) < Work(run, s)
  {
    hide WorkerOk, StateOk, PlacesOk, ShutdownOk, Work, WorkerWork, RequestFrame, ResultWork, TaskWork, Lock;
    assert SubmitterOk(s, p);
    var pc := s.submitters[p];
    var k, t := s.workers[pc.w], s.tasks[pc.ref];
    TakenInRange(run, s, pc.w);
    LockWork(run, k, BySubmit(p), RequestFrame(pc.id, t));
    RequestWork(run, pc.id, t);
    BothMove(run, s, p, SWriting(pc.ref, pc.id, pc.w), pc.w, Lock(k, BySubmit(p), RequestFrame(pc.id, t)));
  }

  lemma TakenInRange(run: Executor, s: State, w: nat)
    requires WorkersOk(run, s) && w < |s.workers|
    ensures s.workers[w].req.taken <= |s.workers[w].req.sent| && s.workers[w].resp.taken <= |s.workers[w].resp.sent|
  {
    hide Wire, GoodRequest, HoldingOk, AnswerTo, WellFramed;
    assert WorkerOk(run, s.refOf, s.tasks, s.workers[w]);
  }

  /** A thread that writes its request, gives up or returns. */
  lemma WritingFalls(run: Executor, s: State, a: Action, p: nat)
    requires SubmitEnabled(s, a, p) && (a.SubmitWrites? || a.SubmitFails? || a.SubmitReturns?)
    ensures Work(run, ApplySubmit(s, a, p)) < Work(run, s)
  {
    hide WorkerWork, WritePiece, Break, Work;
    var pc := s.submitters[p];
    var k := s.workers[pc.w];
    ReleaseWork(run, k);
    if a.SubmitWrites? {
      WritePieceWork(run, k, a.n);
      WorkerMoves(run, s, pc.w, WritePiece(k, a.n));
    } else if a.SubmitFails? {
      BothMove(run, s, p, SIdle, pc.w, Break(k));
    } else {
      BothMove(run, s, p, SIdle, pc.w, k.(writer := Nobody));
      SameWork(run, Go(SetWorker(s, pc.w, k.(writer := Nobody)), p, SIdle), ApplySubmit(s, a, p));
    }
  }

  lemma WorkerMoves(run: Executor, s: State, w: nat, k: Worker)
    requires w < |s.workers|
    ensures Work(run, SetWorker(s, w, k)) + WorkerWork(run, s.workers[w]) == Work(run, s) + WorkerWork(run, k)
  {
    hide SubmitterWork, WorkerWork;
    SumUpdate(s.workers, w, k, ByWorkers(run));
  }

  /** Futures, history and where handlers are do not count. */
  lemma SameWork(run: Executor, s: State, s': State)
    requires s'.submitters == s.submitters && s'.tasks == s.tasks && s'.workers == s.workers
    requires s'.pending == s.pending && s'.shutdown == s.shutdown
    ensures Work(run, s') == Work(run, s)
  {
  }

  lemma WorkerFalls(run: Executor, s: State, a: Action, w: nat)
    requires Inv(run, s) && WorkerEnabled(s, a, w)
    ensures Work(run, ApplyWorker(run, s, a, w)) < Work(run, s)
  {
    hide Inv, WorkerWork, Work, Execute, Read, Write, Needed, LookUp;
    var k := s.workers[w];
    match a
    case ProcessReads(_, n) => ReadsWork(run, k, n); WorkerMoves(run, s, w, k.(req := Read(k.req, n)));
    case ReaderReads(_, n) => ReadsWork(run, k, n); WorkerMoves(run, s, w, k.(resp := Read(k.resp, n)));
    case ProcessExecutes(_) => ExecuteFalls(run, s, w);
    case ProcessWrites(_, n) =>
      AnswerWork(run, k, n);
      WorkerMoves(run, s, w, k.(resp := Write(k.resp, k.process.todo[..n]), process := PAnswering(k.process.todo[n..])));
    case ProcessAnswered(_) =>
      AnswerWork(run, k, 0);
      WorkerMoves(run, s, w, k.(process := PReading));
    case ReaderLooksUp(_) => LookUpFalls(run, s, w);
    case ReaderCompletes(_) => CompletesFalls(run, s, w);
    case ProcessExits(_) | ReaderSeesEof(_) | ReaderErrs(_) => EndFalls(run, s, a, w);
  }

  lemma ExecuteFalls(run: Executor, s: State, w: nat)
    requires Inv(run, s) && WorkerEnabled(s, ProcessExecutes(w), w)
    ensures Work(run, ApplyWorker(run, s, ProcessExecutes(w), w)) < Work(run, s)
  {
    hide WorkerOk, PlacesOk, RefsOk, SubmittersOk, ShutdownOk, WorkerWork, Work, Execute, Needed;
    assert WorkerOk(run, s.refOf, s.tasks, s.workers[w]);
    ExecuteWork(run, s.refOf, s.tasks, s.workers[w]);
    WorkerMoves(run, s, w, Execute(run, s.workers[w]));
  }

  lemma LookUpFalls(run: Executor, s: State, w: nat)
    requires Inv(run, s) && WorkerEnabled(s, ReaderLooksUp(w), w)
    ensures Work(run, LookUp(s, w)) < Work(run, s)
  {
    hide WorkerOk, PlacesOk, RefsOk, SubmittersOk, ShutdownOk, ResultIdOf, RequestsWork, Needed, SubmitterWork;
    assert WorkerOk(run, s.refOf, s.tasks, s.workers[w]);
    AnswerIsThere(run, s.refOf, s.tasks, s.workers[w]);
    var s' := LookUp(s, w);
    TakeWork(run, s.workers[w], s'.workers[w]);
    SumUpdate(s.workers, w, s'.workers[w], ByWorkers(run));
    assert s'.pending.Keys <= s.pending.Keys;
    SubsetSize(s'.pending.Keys, s.pending.Keys);
    KeysSize(s.pending);
    KeysSize(s'.pending);
  }

  lemma {:induction false} SubsetSize(a: set<nat>, b: set<nat>)
    requires a <= b
    ensures |a| <= |b|
  {
    assert b == a + (b - a);
  }

  lemma AnswerIsThere(run: Executor, refOf: map<nat, nat>, tasks: seq<Task>, k: Worker)
    requires WorkerOk(run, refOf, tasks, k) && Needed(RESULT_AT, k.resp.got) == 0
    ensures k.resp.taken < |k.resp.sent|
  {
    hide Wire, FrameBytes, Needed, GoodRequest, HoldingOk, RequestsOk, AnswerTo;
    FrameComplete(RESULT_AT, k.resp);
  }

  lemma TakeWork(run: Executor, k: Worker, k': Worker)
    requires k.reader.RReading? && k.resp.taken < |k.resp.sent| && k' == k.(resp := Take(k.resp), reader := k'.reader)
    requires k'.reader.RReading? || k'.reader.RHolding?
    ensures WorkerWork(run, k') < WorkerWork(run, k)
  {
    hide ResultWork;
  }

  lemma ReaderMoves(run: Executor, k: Worker, r: Reader)
    ensures WorkerWork(run, k.(reader := r)) + ReaderWork(k.reader) == WorkerWork(run, k) + ReaderWork(r)
  {
    hide ResultWork;
  }

  lemma CompletesFalls(run: Executor, s: State, w: nat)
    requires WorkerEnabled(s, ReaderCompletes(w), w)
    ensures Work(run, ApplyWorker(run, s, ReaderCompletes(w), w)) < Work(run, s)
  {
    hide Work, Complete, WorkerWork;
    var k := s.workers[w].(reader := RReading);
    ReaderMoves(run, s.workers[w], RReading);
    WorkerMoves(run, s, w, k);
    SameWork(run, SetWorker(s, w, k), ApplyWorker(run, s, ReaderCompletes(w), w));
  }

  lemma EndFalls(run: Executor, s: State, a: Action, w: nat)
    requires WorkerEnabled(s, a, w) && (a.ProcessExits? || a.ReaderSeesEof? || a.ReaderErrs?)
    ensures Work(run, ApplyWorker(run, s, a, w)) < Work(run, s)
  {
    hide Work, WorkerWork, Needed;
    var k := s.workers[w];
    ReaderMoves(run, k, RExited);
    ProcessMoves(run, k, PExited);
    WorkerMoves(run, s, w, if a.ProcessExits? then k.(process := PExited) else k.(reader := RExited));
  }

  lemma ProcessMoves(run: Executor, k: Worker, p: Process)
    ensures WorkerWork(run, k.(process := p)) + ProcessWork(k.process) == WorkerWork(run, k) + ProcessWork(p)
  {
    hide ResultWork;
  }

  lemma ShutdownFalls(run: Executor, s: State, a: Action)
    requires Inv(run, s) && ShutdownEnabled(s, a)
    ensures Work(run, ApplyShutdown(s, a)) < Work(run, s)
  {
    hide WorkersOk, PlacesOk, RefsOk, SubmittersOk, ShutdownOk, WorkerWork, SubmitterWork;
    match a
    case StopLocks | StopWrites(_) | StopDone | StopFails => StopFalls(run, s, a);
    case Closes => ClosesFalls(run, s);
    case FailsOne(id) =>
      assert (s.shutdown.todo - {id}).Keys == s.shutdown.todo.Keys - {id};
      KeysSize(s.shutdown.todo);
      KeysSize(s.shutdown.todo - {id});
    case _ =>
  }

  /** Each Stop is paid for in advance, with its 32 bytes to write and to read and two steps. */
  lemma StopFalls(run: Executor, s: State, a: Action)
    requires WorkersOk(run, s) && ShutdownEnabled(s, a) && (a.StopLocks? || a.StopWrites? || a.StopDone? || a.StopFails?)
    ensures Work(run, ApplyShutdown(s, a)) < Work(run, s)
  {
    hide WorkersOk, WorkerWork, SubmitterWork, WritePiece, Break, Lock, StopFrame, ResultWork, FrameBytes;
    var i := s.shutdown.i;
    var k, s' := s.workers[i], ApplyShutdown(s, a);
    SumUpdate(s.workers, i, s'.workers[i], ByWorkers(run));
    ReleaseWork(run, k);
    if a.StopLocks? {
      TakenInRange(run, s, i);
      LockWork(run, k, ByShutdown, StopFrame());
      StopWork(run);
    } else if a.StopWrites? {
      WritePieceWork(run, k, a.n);
    }
  }

  lemma ClosesFalls(run: Executor, s: State)
    requires ShutdownEnabled(s, Closes)
    ensures Work(run, ApplyShutdown(s, Closes)) < Work(run, s)
  {
    hide SubmitterWork, ResultWork;
    SumCongruent(s.workers, ApplyShutdown(s, Closes).workers, ByWorkers(run));
  }

  /** Every step but the making of a new task lowers the work; so do failures and deaths. */
  lemma WorkFalls(run: Executor, s: State, a: Action)
    requires Inv(run, s) && Enabled(s, a) && !a.MakeState?
    ensures Work(run, Apply(run, s, a)) < Work(run, s)
  {
    hide Inv, Work, SubmitEnabled, WorkerEnabled, ShutdownEnabled, ApplySubmit, ApplyWorker, ApplyShutdown;
    if ByWorker(a) {
      WorkerFalls(run, s, a, a.w);
    } else if !BySubmitter(a) {
      ShutdownFalls(run, s, a);
    } else if a.LockWriter? {
      LockFalls(run, s, a.p);
    } else if a.SubmitWrites? || a.SubmitFails? || a.SubmitReturns? {
      WritingFalls(run, s, a, a.p);
    } else {
      SubmitFalls(run, s, a, a.p);
    }
  }

  predicate NoNewTasks(acts: seq<Action>) {
    forall i :: 0 <= i < |acts| ==> !acts[i].MakeState?
  }

  /** So a run without new tasks has at most as many steps as there was work. */
  lemma {:induction false} WorkBounds(run: Executor, s: State, acts: seq<Action>)
    requires Inv(run, s) && GoodExecutor(run) && ValidRun(run, s, acts) && NoNewTasks(acts)
    ensures |acts| + Work(run, Final(run, s, acts)) <= Work(run, s)
    decreases |acts|
  {
    hide Inv, GoodExecutor, Enabled, Apply, Work;
    if acts != [] {
      assert !acts[0].MakeState? && NoNewTasks(acts[1..]);
      WorkFalls(run, s, acts[0]);
      StepInv(run, s, acts[0]);
      WorkBounds(run, Apply(run, s, acts[0]), acts[1..]);
    }
  }
}
