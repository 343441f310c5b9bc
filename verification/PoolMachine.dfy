/**
 The process pool as a state machine: any number of submitting threads, one shutdown, and for every
 worker a socket each way, the worker process and its reader thread. One step per atomic access,
 critical section, system call or call of SetValue / SetException.

 Sockets are byte streams written and read in arbitrary pieces. A failed write ends a socket for
 good; a worker may die and a reader may hit an error at any time. Task ids stay below 2^64.
 */
module PoolMachine {
  import opened Bytes
  import opened PoolFraming
  import opened PoolTasks

  /** What the function behind an executor leaves for a payload; it depends on nothing else. */
  type Executor = (nat, seq<byte>) -> Executed

  datatype Submitter =
    | SIdle
    | SMade(ref: nat)                       // shared state made
    | SNumbered(ref: nat, id: nat)          // task id drawn
    | SRegistered(ref: nat, id: nat)        // in pending_, about to test stopping_
    | SChosen(ref: nat, id: nat, w: nat)    // worker chosen, about to take its write_mutex
    | SWriting(ref: nat, id: nat, w: nat)   // holds the write_mutex

  datatype Who = BySubmit(p: nat) | ByShutdown

  /** The holder of a write_mutex and what it has still to write. */
  datatype Writer = Nobody | Writer(who: Who, todo: seq<byte>)

  datatype Process = PReading | PAnswering(todo: seq<byte>) | PExited

  /** RHolding: the reader has moved the handler of task `id` out of pending_. */
  datatype Reader = RReading | RHolding(id: nat, ref: nat, f: Frame) | RExited

  datatype Worker = Worker(req: Link, resp: Link, writer: Writer, broken: bool, process: Process, reader: Reader)

  datatype Shutdown =
    | Running
    | Stopping(i: nat)                      // about to take the write_mutex of worker i
    | SendingStop(i: nat)
    | Joining(i: nat)
    | Swapping                              // about to swap pending_ out
    | Failing(todo: map<nat, nat>)          // the swapped-out handlers not failed yet
    | Finished

  /** Where the handler of a registered task is; once used up, whether a reader or the shutdown used it. */
  datatype Place = InPending | WithReader(w: nat) | SwappedOut | Completed | Abandoned

  /**
   `futures` are the shared states by reference; `pending` maps task ids to the references their
   handlers complete. The rest is history: the task behind each reference, how often it was
   completed, which id was drawn for it (0 for none) and the converse, where each registered handler is, which ids
   passed the test of stopping_, and which references Submit returned as futures.
   */
  datatype State = State(
    nextId: nat, futures: seq<Future>, pending: map<nat, nat>, stopping: bool, nextWorker: nat,
    submitters: seq<Submitter>, workers: seq<Worker>, shutdown: Shutdown,
    tasks: seq<Task>, completions: seq<nat>, idOf: seq<nat>, refOf: map<nat, nat>, place: map<nat, Place>,
    accepted: set<nat>, returned: set<nat>)

  datatype Action =
    | MakeState(p: nat, task: Task)
    | DrawId(p: nat)
    | Register(p: nat)
    | TestStopping(p: nat)
    | LockWriter(p: nat)
    | SubmitWrites(p: nat, n: nat)
    | SubmitFails(p: nat)
    | SubmitReturns(p: nat)
    | ProcessReads(w: nat, n: nat)
    | ProcessExecutes(w: nat)
    | ProcessWrites(w: nat, n: nat)
    | ProcessAnswered(w: nat)
    | ProcessExits(w: nat)
    | ReaderReads(w: nat, n: nat)
    | ReaderLooksUp(w: nat)
    | ReaderCompletes(w: nat)
    | ReaderSeesEof(w: nat)
    | ReaderErrs(w: nat)
    | ShutdownBegins
    | StopLocks
    | StopWrites(n: nat)
    | StopDone
    | StopFails
    | Joins
    | Closes
    | Swaps
    | FailsOne(id: nat)
    | ShutdownReturns

  function RequestFrame(id: nat, t: Task): Frame {
    TaskFrame(RUN, id, t.executor, t.payload)
  }

  predicate SubmitEnabled(s: State, a: Action, p: nat) {
    && p < |s.submitters|
    && var pc := s.submitters[p];
       match a
       case MakeState(_, t) => pc.SIdle? && t.executor < WORD64 && |t.payload| < WORD64
       case DrawId(_) => pc.SMade? && pc.ref < |s.idOf| && s.nextId < WORD64
       case Register(_) => pc.SNumbered?
       case TestStopping(_) => pc.SRegistered? && |s.workers| > 0
       case LockWriter(_) => pc.SChosen? && pc.w < |s.workers| && pc.ref < |s.tasks| && s.workers[pc.w].writer == Nobody
       case SubmitWrites(_, n) =>
         && pc.SWriting? && pc.w < |s.workers| && !s.workers[pc.w].broken
         && s.workers[pc.w].writer.Writer? && s.workers[pc.w].writer.who == BySubmit(p)
         && 0 < n <= |s.workers[pc.w].writer.todo|
       case SubmitFails(_) =>
         && pc.SWriting? && pc.w < |s.workers|
         && s.workers[pc.w].writer.Writer? && s.workers[pc.w].writer.who == BySubmit(p)
       case SubmitReturns(_) =>
         && pc.SWriting? && pc.w < |s.workers| && s.workers[pc.w].writer == Writer(BySubmit(p), [])
       case _ => false
  }

  predicate WorkerEnabled(s: State, a: Action, w: nat) {
    && w < |s.workers|
    && var k := s.workers[w];
       match a
       case ProcessReads(_, n) =>
         k.process.PReading? && 0 < n <= Needed(TASK_AT, k.req.got) && k.req.read + n <= |k.req.bytes|
       case ProcessExecutes(_) => k.process.PReading? && Needed(TASK_AT, k.req.got) == 0 && |k.req.got| >= 32
       case ProcessWrites(_, n) => k.process.PAnswering? && 0 < n <= |k.process.todo|
       case ProcessAnswered(_) => k.process == PAnswering([])
       case ProcessExits(_) => !k.process.PExited?
       case ReaderReads(_, n) =>
         k.reader.RReading? && 0 < n <= Needed(RESULT_AT, k.resp.got) && k.resp.read + n <= |k.resp.bytes|
       case ReaderLooksUp(_) => k.reader.RReading? && Needed(RESULT_AT, k.resp.got) == 0 && |k.resp.got| >= 24
       case ReaderCompletes(_) =>
         k.reader.RHolding? && k.reader.ref < |s.futures| == |s.tasks| == |s.completions| && |k.reader.f.header| == 24
       case ReaderSeesEof(_) =>
         && k.reader.RReading? && Needed(RESULT_AT, k.resp.got) > 0
         && k.process.PExited? && k.resp.read == |k.resp.bytes|
       case ReaderErrs(_) => k.reader.RReading?
       case _ => false
  }

  predicate ShutdownEnabled(s: State, a: Action) {
    match a
    case ShutdownBegins => !s.stopping && s.shutdown.Running?
    case StopLocks => s.shutdown.Stopping? && s.shutdown.i < |s.workers| && s.workers[s.shutdown.i].writer == Nobody
    case StopWrites(n) =>
      && s.shutdown.SendingStop? && s.shutdown.i < |s.workers| && !s.workers[s.shutdown.i].broken
      && s.workers[s.shutdown.i].writer.Writer? && s.workers[s.shutdown.i].writer.who == ByShutdown
      && 0 < n <= |s.workers[s.shutdown.i].writer.todo|
    case StopDone =>
      s.shutdown.SendingStop? && s.shutdown.i < |s.workers| && s.workers[s.shutdown.i].writer == Writer(ByShutdown, [])
    case StopFails =>
      && s.shutdown.SendingStop? && s.shutdown.i < |s.workers|
      && s.workers[s.shutdown.i].writer.Writer? && s.workers[s.shutdown.i].writer.who == ByShutdown
    case Joins =>
      || (s.shutdown.Stopping? && s.shutdown.i == |s.workers|)
      || (s.shutdown.Joining? && s.shutdown.i < |s.workers| && s.workers[s.shutdown.i].reader.RExited?)
    case Closes => s.shutdown.Joining? && s.shutdown.i == |s.workers|
    case Swaps => s.shutdown.Swapping?
    case FailsOne(id) =>
      s.shutdown.Failing? && id in s.shutdown.todo && s.shutdown.todo[id] < |s.futures| == |s.completions|
    case ShutdownReturns => s.shutdown == Failing(map[])
    case _ => false
  }

  predicate BySubmitter(a: Action) {
    a.MakeState? || a.DrawId? || a.Register? || a.TestStopping? || a.LockWriter? || a.SubmitWrites? ||
    a.SubmitFails? || a.SubmitReturns?
  }

  predicate ByWorker(a: Action) {
    a.ProcessReads? || a.ProcessExecutes? || a.ProcessWrites? || a.ProcessAnswered? || a.ProcessExits? ||
    a.ReaderReads? || a.ReaderLooksUp? || a.ReaderCompletes? || a.ReaderSeesEof? || a.ReaderErrs?
  }

  predicate Enabled(s: State, a: Action) {
    if BySubmitter(a) then SubmitEnabled(s, a, a.p)
    else if ByWorker(a) then WorkerEnabled(s, a, a.w)
    else ShutdownEnabled(s, a)
  }

  // ---------- Steps ----------

  function Go(s: State, p: nat, pc: Submitter): State
    requires p < |s.submitters|
  {
    s.(submitters := s.submitters[p := pc])
  }

  function SetWorker(s: State, w: nat, k: Worker): State
    requires w < |s.workers|
  {
    s.(workers := s.workers[w := k])
  }

  /** A writer takes the write_mutex to send a frame. */
  function Lock(k: Worker, who: Who, f: Frame): Worker {
    k.(req := Queue(k.req, f), writer := Writer(who, FrameBytes(f)))
  }

  function WritePiece(k: Worker, n: nat): Worker
    requires k.writer.Writer? && n <= |k.writer.todo|
  {
    k.(req := Write(k.req, k.writer.todo[..n]), writer := k.writer.(todo := k.writer.todo[n..]))
  }

  function Break(k: Worker): Worker {
    k.(writer := Nobody, broken := true)
  }

  function ApplySubmit(s: State, a: Action, p: nat): State
    requires SubmitEnabled(s, a, p)
  {
    var pc := s.submitters[p];
    match a
    case MakeState(_, t) =>
      Go(s, p, SMade(|s.futures|)).(futures := s.futures + [Unready], tasks := s.tasks + [t],
                                    completions := s.completions + [0], idOf := s.idOf + [0])
    case DrawId(_) =>
      Go(s, p, SNumbered(pc.ref, s.nextId)).(
        nextId := s.nextId + 1, refOf := s.refOf[s.nextId := pc.ref], idOf := s.idOf[pc.ref := s.nextId])
    case Register(_) =>
      Go(s, p, SRegistered(pc.ref, pc.id)).(pending := s.pending[pc.id := pc.ref],
                                            place := s.place[pc.id := InPending])
    case TestStopping(_) =>
      if s.stopping then Go(s, p, SIdle)
      else Go(s, p, SChosen(pc.ref, pc.id, s.nextWorker % |s.workers|)).(
             nextWorker := s.nextWorker + 1, accepted := s.accepted + {pc.id})
    case LockWriter(_) =>
      Go(SetWorker(s, pc.w, Lock(s.workers[pc.w], BySubmit(p), RequestFrame(pc.id, s.tasks[pc.ref]))),
         p, SWriting(pc.ref, pc.id, pc.w))
    case SubmitWrites(_, n) => SetWorker(s, pc.w, WritePiece(s.workers[pc.w], n))
    case SubmitFails(_) => Go(SetWorker(s, pc.w, Break(s.workers[pc.w])), p, SIdle)
    case SubmitReturns(_) =>
      Go(SetWorker(s, pc.w, s.workers[pc.w].(writer := Nobody)), p, SIdle).(returned := s.returned + {pc.ref})
  }

  /** The worker process handles a whole frame: Stop ends it, a task is executed and answered. */
  function Execute(run: Executor, k: Worker): Worker
    requires |k.req.got| >= 32
  {
    var f := Frame(k.req.got[..32], k.req.got[32..]);
    if CommandOf(f) == STOP then k.(process := PExited)
    else
      var answer := Answer(TaskIdOf(f), run(ExecutorOf(f), f.body));
      k.(req := Take(k.req), resp := Queue(k.resp, answer), process := PAnswering(FrameBytes(answer)))
  }

  function LookUp(s: State, w: nat): State
    requires WorkerEnabled(s, ReaderLooksUp(w), w)
  {
    var k := s.workers[w];
    var f := Frame(k.resp.got[..24], k.resp.got[24..]);
    var id := ResultIdOf(f);
    if id !in s.pending then SetWorker(s, w, k.(resp := Take(k.resp)))
    else
      SetWorker(s, w, k.(resp := Take(k.resp), reader := RHolding(id, s.pending[id], f))).(
        pending := s.pending - {id}, place := s.place[id := WithReader(w)])
  }

  /** SetValue or SetException on the shared state `ref` of task `id`. */
  function Settle(s: State, id: nat, ref: nat, future: Future, place: Place): State
    requires ref < |s.futures| == |s.completions|
  {
    s.(futures := s.futures[ref := future], completions := s.completions[ref := s.completions[ref] + 1],
       place := s.place[id := place])
  }

  function ApplyWorker(run: Executor, s: State, a: Action, w: nat): State
    requires WorkerEnabled(s, a, w)
  {
    var k := s.workers[w];
    match a
    case ProcessReads(_, n) => SetWorker(s, w, k.(req := Read(k.req, n)))
    case ProcessExecutes(_) => SetWorker(s, w, Execute(run, k))
    case ProcessWrites(_, n) =>
      SetWorker(s, w, k.(resp := Write(k.resp, k.process.todo[..n]), process := PAnswering(k.process.todo[n..])))
    case ProcessAnswered(_) => SetWorker(s, w, k.(process := PReading))
    case ProcessExits(_) => SetWorker(s, w, k.(process := PExited))
    case ReaderReads(_, n) => SetWorker(s, w, k.(resp := Read(k.resp, n)))
    case ReaderLooksUp(_) => LookUp(s, w)
    case ReaderCompletes(_) =>
      Settle(SetWorker(s, w, k.(reader := RReading)), k.reader.id, k.reader.ref,
             Complete(s.tasks[k.reader.ref].resultSize, k.reader.f), Completed)
    case ReaderSeesEof(_) => SetWorker(s, w, k.(reader := RExited))
    case ReaderErrs(_) => SetWorker(s, w, k.(reader := RExited))
  }

  function ApplyShutdown(s: State, a: Action): State
    requires ShutdownEnabled(s, a)
  {
    var d := s.shutdown;
    match a
    case ShutdownBegins => s.(stopping := true, shutdown := Stopping(0))
    case StopLocks => SetWorker(s, d.i, Lock(s.workers[d.i], ByShutdown, StopFrame())).(shutdown := SendingStop(d.i))
    case StopWrites(n) => SetWorker(s, d.i, WritePiece(s.workers[d.i], n))
    case StopDone => SetWorker(s, d.i, s.workers[d.i].(writer := Nobody)).(shutdown := Stopping(d.i + 1))
    case StopFails => SetWorker(s, d.i, Break(s.workers[d.i])).(shutdown := Stopping(d.i + 1))
    case Joins => s.(shutdown := if d.Stopping? then Joining(0) else Joining(d.i + 1))
    case Closes => s.(workers := seq(|s.workers|, w requires 0 <= w < |s.workers| => s.workers[w].(broken := true)),
                      shutdown := Swapping)
    case Swaps =>
      s.(shutdown := Failing(s.pending), pending := map[],
         place := map id | id in s.place :: if s.place[id] == InPending then SwappedOut else s.place[id])
    case FailsOne(id) => Settle(s, id, d.todo[id], Failed(SHUTDOWN), Abandoned).(shutdown := Failing(d.todo - {id}))
    case ShutdownReturns => s.(shutdown := Finished)
  }

  function Apply(run: Executor, s: State, a: Action): State
    requires Enabled(s, a)
  {
    if BySubmitter(a) then ApplySubmit(s, a, a.p)
    else if ByWorker(a) then ApplyWorker(run, s, a, a.w)
    else ApplyShutdown(s, a)
  }

  // ---------- Runs ----------

  const FRESH_LINK: Link := Link([], [], 0, [], 0)

  function Init(submitters: nat, workers: nat): State {
    State(1, [], map[], false, 0, seq(submitters, _ => SIdle),
          seq(workers, _ => Worker(FRESH_LINK, FRESH_LINK, Nobody, false, PReading, RReading)), Running,
          [], [], [], map[], map[], {}, {})
  }

  predicate ValidRun(run: Executor, s: State, acts: seq<Action>)
    decreases |acts|
  {
    acts == [] || (Enabled(s, acts[0]) && ValidRun(run, Apply(run, s, acts[0]), acts[1..]))
  }

  function Final(run: Executor, s: State, acts: seq<Action>): State
    requires ValidRun(run, s, acts)
    decreases |acts|
  {
    if acts == [] then s else Final(run, Apply(run, s, acts[0]), acts[1..])
  }
}
