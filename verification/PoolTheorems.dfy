/**
 What holds in every run of the process pool, for any number of submitting threads and workers and
 any interleaving: every future is completed at most once and with its own task's result, and none
 that was returned is left when Shutdown returns.
 */
module PoolTheorems {
  import opened Bytes
  import opened PoolFraming
  import opened PoolTasks
  import opened PoolMachine
  import opened PoolSafety
  import opened PoolSteps

  // ---------- Every step and every run ----------

  lemma SubmitInv(run: Executor, s: State, a: Action)
    requires Inv(run, s) && Enabled(s, a) && BySubmitter(a)
    ensures Inv(run, Apply(run, s, a))
  {
    hide Inv;
    match a
    case MakeState(p, t) => MakeStateInv(run, s, p, t);
    case DrawId(p) => DrawIdInv(run, s, p);
    case Register(p) => RegisterInv(run, s, p);
    case TestStopping(p) => TestStoppingInv(run, s, p);
    case LockWriter(p) => LockWriterInv(run, s, p);
    case SubmitWrites(p, n) => SubmitWritesInv(run, s, p, n);
    case SubmitFails(p) => SubmitEndsInv(run, s, a, p);
    case SubmitReturns(p) => SubmitEndsInv(run, s, a, p);
  }

  lemma WorkerInv(run: Executor, s: State, a: Action)
    requires Inv(run, s) && Enabled(s, a) && ByWorker(a) && GoodExecutor(run)
    ensures Inv(run, Apply(run, s, a))
  {
    hide PlacesOk, RefsOk, SubmittersOk, ShutdownOk, WorkerOk, Execute, Needed, Read, Write, Complete, Settle, LookUp, GoodExecutor,
         SetWorker;
    var k := s.workers[a.w];
    assert WorkerOk(run, s.refOf, s.tasks, k);
    match a
    case ProcessReads(w, n) =>
      ProcessReadsOk(run, s.refOf, s.tasks, k, n);
      WorkerStepInv(run, s, w, k.(req := Read(k.req, n)));
    case ProcessExecutes(w) =>
      ExecuteOk(run, s.refOf, s.tasks, k);
      ExecuteKeepsReader(run, k);
      WorkerStepInv(run, s, w, Execute(run, k));
    case ProcessWrites(w, n) =>
      ProcessWritesOk(run, s.refOf, s.tasks, k, n);
      WorkerStepInv(run, s, w, k.(resp := Write(k.resp, k.process.todo[..n]), process := PAnswering(k.process.todo[n..])));
    case ProcessAnswered(w) =>
      ProcessMovesOk(run, s.refOf, s.tasks, k, PReading);
      WorkerStepInv(run, s, w, k.(process := PReading));
    case ProcessExits(w) =>
      ProcessMovesOk(run, s.refOf, s.tasks, k, PExited);
      WorkerStepInv(run, s, w, k.(process := PExited));
    case ReaderReads(w, n) =>
      ReaderReadsOk(run, s.refOf, s.tasks, k, n);
      WorkerStepInv(run, s, w, k.(resp := Read(k.resp, n)));
    case ReaderLooksUp(w) => LookUpInv(run, s, w);
    case ReaderCompletes(w) => CompletesInv(run, s, w);
    case ReaderSeesEof(w) =>
      ReaderStops(run, s.refOf, s.tasks, k);
      WorkerStepInv(run, s, w, k.(reader := RExited));
    case ReaderErrs(w) =>
      ReaderStops(run, s.refOf, s.tasks, k);
      WorkerStepInv(run, s, w, k.(reader := RExited));
  }

  lemma ExecuteKeepsReader(run: Executor, k: Worker)
    requires |k.req.got| >= 32
    ensures Execute(run, k).reader == k.reader
  {
  }

  lemma ShutdownInv(run: Executor, s: State, a: Action)
    requires Inv(run, s) && Enabled(s, a) && !BySubmitter(a) && !ByWorker(a)
    ensures Inv(run, Apply(run, s, a))
  {
    hide PlacesOk, RefsOk, SubmittersOk, WorkersOk;
    match a
    case ShutdownBegins => BeginsInv(run, s);
    case StopLocks => StopStepsInv(run, s, a);
    case StopWrites(n) => StopStepsInv(run, s, a);
    case StopDone => StopStepsInv(run, s, a);
    case StopFails => StopStepsInv(run, s, a);
    case Joins => ShutdownMoves(run, s, Apply(run, s, a).shutdown);
    case Closes => ClosesInv(run, s);
    case Swaps => SwapsInv(run, s);
    case FailsOne(id) => FailsOneInv(run, s, id);
    case ShutdownReturns => ShutdownMoves(run, s, Finished);
  }

  lemma StepInv(run: Executor, s: State, a: Action)
    requires Inv(run, s) && Enabled(s, a) && GoodExecutor(run)
    ensures Inv(run, Apply(run, s, a))
  {
    hide Inv, Apply, Enabled, GoodExecutor;
    if BySubmitter(a) { SubmitInv(run, s, a); }
    else if ByWorker(a) { WorkerInv(run, s, a); }
    else { ShutdownInv(run, s, a); }
  }

  lemma {:induction false} RunInv(run: Executor, s: State, acts: seq<Action>)
    requires Inv(run, s) && ValidRun(run, s, acts) && GoodExecutor(run)
    ensures Inv(run, Final(run, s, acts))
    decreases |acts|
  {
    hide Inv, Apply, Enabled, GoodExecutor;
    if acts != [] {
      StepInv(run, s, acts[0]);
      RunInv(run, Apply(run, s, acts[0]), acts[1..]);
    }
  }

  lemma Reached(run: Executor, submitters: nat, workers: nat, acts: seq<Action>) returns (s: State)
    requires GoodExecutor(run) && ValidRun(run, Init(submitters, workers), acts)
    ensures s == Final(run, Init(submitters, workers), acts) && Inv(run, s)
  {
    hide Inv, GoodExecutor;
    InitInv(run, submitters, workers);
    RunInv(run, Init(submitters, workers), acts);
    s := Final(run, Init(submitters, workers), acts);
  }

  // ---------- Completion ----------

  /**
   Every shared state is completed at most once, and is ready exactly when it was; and once Shutdown
   has returned, every future that any Submit returned, or still will return, is ready.
   */
  lemma FuturesComplete(run: Executor, submitters: nat, workers: nat, acts: seq<Action>)
    requires GoodExecutor(run) && ValidRun(run, Init(submitters, workers), acts)
    ensures var s := Final(run, Init(submitters, workers), acts);
            && |s.futures| == |s.completions|
            && (forall ref :: 0 <= ref < |s.futures| ==>
                  s.completions[ref] <= 1 && (s.completions[ref] == 1 <==> s.futures[ref] != Unready))
            && (s.shutdown.Finished? ==>
                  forall ref :: ref in s.returned ==> ref < |s.futures| && s.futures[ref] != Unready)
            && (s.shutdown.Finished? ==>
                  forall p :: 0 <= p < |s.submitters| && (s.submitters[p].SChosen? || s.submitters[p].SWriting?) ==>
                    s.submitters[p].ref < |s.futures| && s.futures[s.submitters[p].ref] != Unready)
  {
    hide PlacesOk, RefsOk, SubmittersOk, ShutdownOk, WorkersOk, SHUTDOWN, BAD_SIZE;
    var s := Reached(run, submitters, workers, acts);
    SameLengths(run, s);
    forall ref | 0 <= ref < |s.futures|
      ensures s.completions[ref] <= 1 && (s.completions[ref] == 1 <==> s.futures[ref] != Unready)
    {
      CompletedOnce(run, s, ref);
    }
    if s.shutdown.Finished? {
      forall ref | ref in s.returned
        ensures ref < |s.futures| && s.futures[ref] != Unready
      {
        ReturnedWasAccepted(run, s, ref);
        AcceptedAreReady(run, s, s.idOf[ref]);
      }
      forall p | 0 <= p < |s.submitters| && (s.submitters[p].SChosen? || s.submitters[p].SWriting?)
        ensures s.submitters[p].ref < |s.futures| && s.futures[s.submitters[p].ref] != Unready
      {
        HolderWasAccepted(run, s, p);
        AcceptedAreReady(run, s, s.submitters[p].id);
      }
    }
  }

  lemma SameLengths(run: Executor, s: State)
    requires RefsOk(run, s)
    ensures |s.futures| == |s.tasks| == |s.completions| == |s.idOf|
  {
  }

  lemma CompletedOnce(run: Executor, s: State, ref: nat)
    requires RefsOk(run, s) && ref < |s.futures|
    ensures s.completions[ref] <= 1 && (s.completions[ref] == 1 <==> s.futures[ref] != Unready)
  {
    hide SHUTDOWN, BAD_SIZE;
    if s.idOf[ref] != 0 {
      assert StateOk(run, s, s.idOf[ref]);
    }
  }

  lemma ReturnedWasAccepted(run: Executor, s: State, ref: nat)
    requires RefsOk(run, s) && SubmittersOk(s) && ref in s.returned
    ensures ref < |s.idOf| && s.idOf[ref] in s.accepted && s.idOf[ref] in s.refOf && s.refOf[s.idOf[ref]] == ref
  {
    hide StateOk, SubmitterOk, Distinct;
  }

  lemma HolderWasAccepted(run: Executor, s: State, p: nat)
    requires RefsOk(run, s) && SubmittersOk(s) && p < |s.submitters| && (s.submitters[p].SChosen? || s.submitters[p].SWriting?)
    ensures var id := s.submitters[p].id; id in s.accepted && id in s.refOf && s.refOf[id] == s.submitters[p].ref
  {
    hide StateOk, Distinct;
    assert SubmitterOk(s, p);
  }

  lemma AcceptedAreReady(run: Executor, s: State, id: nat)
    requires Inv(run, s) && s.shutdown.Finished? && id in s.accepted
    ensures id in s.refOf && s.refOf[id] < |s.futures| && s.futures[s.refOf[id]] != Unready
  {
    hide WorkersOk, SubmitterOk, Distinct, SHUTDOWN, BAD_SIZE;
    assert id in s.place && s.place[id] != SwappedOut;
    assert StateOk(run, s, id);
  }

  /** What Shutdown leaves in pending_ belongs to no future: those are tasks whose Submit did not get past its test. */
  lemma LeftoversWereRefused(run: Executor, submitters: nat, workers: nat, acts: seq<Action>)
    requires GoodExecutor(run) && ValidRun(run, Init(submitters, workers), acts)
    requires Final(run, Init(submitters, workers), acts).shutdown.Finished?
    ensures var s := Final(run, Init(submitters, workers), acts);
            && (forall id :: id in s.pending ==> id !in s.accepted)
            && (forall id :: id in s.pending ==> forall ref :: ref in s.returned ==> s.pending[id] != ref)
  {
    hide WorkerOk, StateOk;
    var s := Reached(run, submitters, workers, acts);
    forall id | id in s.pending
      ensures id !in s.accepted
    {
      assert s.place[id] == InPending;
    }
    forall id, ref | id in s.pending && ref in s.returned
      ensures s.pending[id] != ref
    {
      assert s.refOf[id] == s.pending[id] && s.idOf[s.refOf[id]] == id && s.idOf[ref] in s.accepted;
    }
  }

  // ---------- Routing ----------

  /** A reader completed this shared state. */
  predicate ByReader(s: State, ref: nat)
    requires ref < |s.idOf|
  {
    s.idOf[ref] in s.place && s.place[s.idOf[ref]] == Completed
  }

  /**
   Whichever worker served a task and however the responses interleave, a shared state completed by a
   reader holds what its own task's executor left for the payload its own Submit serialised; any other
   that is ready was failed by the shutdown, after the swap.
   */
  lemma ResultsAreRouted(run: Executor, submitters: nat, workers: nat, acts: seq<Action>)
    requires GoodExecutor(run) && ValidRun(run, Init(submitters, workers), acts)
    ensures var s := Final(run, Init(submitters, workers), acts);
            && |s.futures| == |s.tasks| == |s.idOf|
            && forall ref :: 0 <= ref < |s.futures| && s.futures[ref] != Unready ==>
                 var t := s.tasks[ref];
                 if ByReader(s, ref) then s.futures[ref] == Delivery(t.resultSize, run(t.executor, t.payload))
                 else s.futures[ref] == Failed(SHUTDOWN) && AfterSwap(s)
  {
    hide WorkersOk, PlacesOk, SubmittersOk, ShutdownOk, Delivery, SHUTDOWN;
    var s := Reached(run, submitters, workers, acts);
    forall ref | 0 <= ref < |s.futures| && s.futures[ref] != Unready
      ensures var t := s.tasks[ref];
              if ByReader(s, ref) then s.futures[ref] == Delivery(t.resultSize, run(t.executor, t.payload))
              else s.futures[ref] == Failed(SHUTDOWN) && AfterSwap(s)
    {
      assert s.idOf[ref] != 0 && StateOk(run, s, s.idOf[ref]);
    }
  }

  /**
   End to end, for a call Submit serialised: with executor `e` being ExecuteTyped for a function's
   signature, a shared state completed by a reader holds exactly the value returned or the text
   thrown, unless that text is empty.
   */
  lemma CallsComeBack(run: Executor, submitters: nat, workers: nat, acts: seq<Action>,
                      ref: nat, e: nat, call: Callable, fn: seq<byte>, args: seq<seq<byte>>, sizes: seq<nat>)
    requires GoodExecutor(run) && ValidRun(run, Init(submitters, workers), acts)
    requires forall data :: run(e, data) == ExecuteTyped(call, sizes, data)
    requires |fn| == FUNCTION_SIZE && Fits(args, sizes)
    requires var s := Final(run, Init(submitters, workers), acts);
             ref < |s.tasks| == |s.futures| == |s.idOf| && s.futures[ref] != Unready && ByReader(s, ref)
             && s.tasks[ref].executor == e && s.tasks[ref].payload == Payload([fn] + args)
             && WellTyped(s.tasks[ref].resultSize, call([fn] + args))
    ensures var s := Final(run, Init(submitters, workers), acts);
            s.futures[ref] == Expected(s.tasks[ref].resultSize, call([fn] + args)) <==> call([fn] + args) != Threw([])
  {
    hide Inv, Delivery, Expected, ExecuteTyped, Payload, SHUTDOWN;
    ResultsAreRouted(run, submitters, workers, acts);
    ExecutesWhatWasSubmitted(call, fn, args, sizes);
    DeliveryIsExact(Final(run, Init(submitters, workers), acts).tasks[ref].resultSize, call([fn] + args));
  }

  // ---------- The sockets ----------

  /**
   On every socket, frames of different threads never mix, and however writes and reads are cut up
   the worker has taken exactly the frames sent first, in order, no Stop among them, and has sent
   the answer to each, which its reader takes in the same order.
   */
  lemma SocketsKeepFrames(run: Executor, submitters: nat, workers: nat, acts: seq<Action>, w: nat)
    requires GoodExecutor(run) && ValidRun(run, Init(submitters, workers), acts)
    requires w < |Final(run, Init(submitters, workers), acts).workers|
    ensures var k := Final(run, Init(submitters, workers), acts).workers[w];
            && k.req.bytes <= Wire(k.req.sent) && k.resp.bytes <= Wire(k.resp.sent)
            && k.resp.taken <= |k.resp.sent| == k.req.taken <= |k.req.sent|
            && k.req.read == |Wire(k.req.sent[..k.req.taken])| + |k.req.got|
            && (forall i :: 0 <= i < |k.req.sent| ==> |k.req.sent[i].header| == 32 && WellFramed(TASK_AT, k.req.sent[i]))
            && (forall i :: 0 <= i < k.req.taken ==>
                  CommandOf(k.req.sent[i]) != STOP && k.resp.sent[i] == AnswerTo(run, k.req.sent[i]))
            && (!k.broken && k.writer == Nobody ==> k.req.bytes == Wire(k.req.sent))
  {
    hide PlacesOk, RefsOk, SubmittersOk, ShutdownOk, Wire, CommandOf, AnswerTo, WellFramed, BodySize;
    var s := Reached(run, submitters, workers, acts);
    var k := s.workers[w];
    assert WorkerOk(run, s.refOf, s.tasks, k);
    assert k.req.bytes + [] == k.req.bytes;
    forall i | 0 <= i < |k.req.sent|
      ensures |k.req.sent[i].header| == 32 && WellFramed(TASK_AT, k.req.sent[i])
    {
      assert GoodRequest(s.refOf, s.tasks, k.req.sent[i]);
    }
  }
}
