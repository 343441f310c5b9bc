/**
 Bringing Shutdown to its end. Calm runs without new tasks are bounded, and one that can go no further
 has brought Shutdown to its end exactly if every Stop arrived or could have.
 */
module PoolFinish {
  import opened Bytes
  import opened Options
  import opened PoolFraming
  import opened PoolTasks
  import opened PoolMachine
  import opened PoolSafety
  import opened PoolTheorems
  import opened PoolGraceful
  import opened PoolProgress
  import opened PoolWork

  // ---------- Steps that spoil nothing ----------

  /** In order, and every Stop can still arrive. */
  ghost predicate Able(run: Executor, s: State) {
    Sane(run, s) && AllReach(s)
  }

  ghost predicate Goes(run: Executor, s: State, acts: seq<Action>, t: State) {
    ValidRun(run, s, acts) && Final(run, s, acts) == t && Calm(acts)
  }

  /** A step that makes no new task, kills no worker, meets no reader's error, and fails no write but to a socket given up. */
  predicate Settles(s: State, a: Action) {
    match a
    case MakeState(_, _) => false
    case ProcessExits(_) => false
    case ReaderErrs(_) => false
    case SubmitFails(p) =>
      p < |s.submitters| && s.submitters[p].SWriting? && s.submitters[p].w < |s.workers| && s.workers[s.submitters[p].w].broken
    case StopFails => s.shutdown.SendingStop? && s.shutdown.i < |s.workers| && s.workers[s.shutdown.i].broken
    case _ => true
  }

  lemma AllExtend(run: Executor, s: State, a: Action)
    requires Enabled(s, a) && CalmStepOf(a)
    ensures var s' := Apply(run, s, a);
            |s'.workers| == |s.workers| && forall w :: 0 <= w < |s.workers| ==> Extends(s.workers[w], s'.workers[w])
  {
    hide Apply, Enabled;
    if BySubmitter(a) { SubmitExtends(run, s, a); }
    else if ByWorker(a) { WorkerAlone(run, s, a); WorkerKeepsRequests(run, s, a); }
    else { ShutdownExtends(run, s, a); }
  }

  lemma BreaksNothing(run: Executor, s: State, a: Action)
    requires Enabled(s, a) && Settles(s, a) && |Apply(run, s, a).workers| == |s.workers|
    requires a.Closes? ==> forall w :: 0 <= w < |s.workers| ==> HasStop(s.workers[w])
    ensures forall w :: 0 <= w < |s.workers| && Apply(run, s, a).workers[w].broken ==> s.workers[w].broken || HasStop(s.workers[w])
  {
    hide HasStop;
    if ByWorker(a) {
      hide Apply, Enabled;
      WorkerAlone(run, s, a);
      WorkerKeepsRequests(run, s, a);
    } else if BySubmitter(a) {
      hide RequestFrame, FrameBytes;
    } else {
      hide StopFrame, FrameBytes;
    }
  }

  lemma JoiningHasStops(run: Executor, s: State)
    requires Able(run, s) && s.shutdown.Joining?
    ensures forall w :: 0 <= w < |s.workers| ==> HasStop(s.workers[w])
  {
    hide Inv, CalmInv, ExitsAtStop, MutexOk, ShutdownAt, HasStop;
    forall w | 0 <= w < |s.workers| ensures HasStop(s.workers[w]) {
      assert StopReaches(s.workers[w]) && StopTried(s.workers[w]);
    }
  }

  /** A Stop that could arrive still can. */
  lemma SettlesReach(run: Executor, s: State, a: Action)
    requires Able(run, s) && Enabled(s, a) && Settles(s, a)
    ensures AllReach(Apply(run, s, a)) && |Apply(run, s, a).workers| == |s.workers|
  {
    hide HasStop, Sane, Apply;
    var s' := Apply(run, s, a);
    if a.Closes? { JoiningHasStops(run, s); }
    AllExtend(run, s, a);
    BreaksNothing(run, s, a);
    forall w | 0 <= w < |s'.workers| ensures StopReaches(s'.workers[w]) {
      assert StopReaches(s.workers[w]);
      if HasStop(s.workers[w]) { HasStopStays(s.workers[w], s'.workers[w]); }
    }
  }

  lemma Step(run: Executor, s: State, a: Action)
    requires Able(run, s) && Enabled(s, a) && GoodExecutor(run) && Settles(s, a)
    ensures Able(run, Apply(run, s, a)) && Work(run, Apply(run, s, a)) < Work(run, s)
  {
    hide Inv, CalmInv, ProgressOk, AllReach, Enabled, Apply, GoodExecutor, Work;
    StepSane(run, s, a);
    SettlesReach(run, s, a);
    WorkFalls(run, s, a);
  }

  lemma {:induction false} RunConcat(run: Executor, s: State, a: seq<Action>, b: seq<Action>)
    requires ValidRun(run, s, a) && ValidRun(run, Final(run, s, a), b)
    ensures ValidRun(run, s, a + b) && Final(run, s, a + b) == Final(run, Final(run, s, a), b)
    decreases |a|
  {
    hide Enabled, Apply;
    if a == [] {
      assert a + b == b;
    } else {
      assert (a + b)[0] == a[0] && (a + b)[1..] == a[1..] + b;
      RunConcat(run, Apply(run, s, a[0]), a[1..], b);
    }
  }

  lemma GoesThen(run: Executor, s: State, a: seq<Action>, t: State, b: seq<Action>, u: State)
    requires Goes(run, s, a, t) && Goes(run, t, b, u)
    ensures Goes(run, s, a + b, u)
  {
    hide Enabled, Apply;
    RunConcat(run, s, a, b);
  }

  lemma GoesNowhere(run: Executor, s: State)
    ensures Goes(run, s, [], s)
  {
  }

  // ---------- There is always a step ----------

  lemma RunningIsNotStopping(run: Executor, s: State)
    requires Inv(run, s) && s.shutdown.Running?
    ensures !s.stopping
  {
    hide WorkersOk, PlacesOk, RefsOk, SubmittersOk;
  }

  lemma StoppingInRange(s: State)
    requires Orderly(s)
    ensures s.shutdown.Stopping? || s.shutdown.Joining? ==> s.shutdown.i <= |s.workers|
  {
    hide MutexOk;
  }

  lemma HolderSubmits(run: Executor, s: State, i: nat) returns (p: nat)
    requires Able(run, s) && s.shutdown == Stopping(i) && i < |s.workers| && s.workers[i].writer.Writer?
    ensures p < |s.submitters| && s.submitters[p].SWriting? && s.submitters[p].w == i && s.workers[i].writer.who == BySubmit(p)
  {
    hide Inv, CalmInv, AllReach, StopsSent, ExitsAtStop, ShutdownAt;
    assert MutexOk(s, i);
    p := s.workers[i].writer.who.p;
  }

  lemma StopIsHeld(run: Executor, s: State, i: nat)
    requires Able(run, s) && s.shutdown == SendingStop(i)
    ensures i < |s.workers| && s.workers[i].writer.Writer? && s.workers[i].writer.who == ByShutdown
  {
    hide Inv, CalmInv, AllReach, StopsSent, ExitsAtStop, MutexOk;
  }

  lemma NeededIsNatural(at: nat, l: Link)
    requires LinkOk(at, l)
    ensures Needed(at, l.got) >= 0
    ensures Needed(at, l.got) == 0 ==> l.taken < |l.sent| && |l.got| >= at + 8
  {
    hide FrameBytes, Wire, BodySize, Needed;
    if l.got != [] {
      NeededOfPrefix(at, l.sent[l.taken], l.got);
      FrameIsNonempty(at, l.sent[l.taken]);
    }
    if l.got == [] { NothingRead(at); }
    if Needed(at, l.got) == 0 { FrameComplete(at, l); }
  }

  lemma NothingRead(at: nat)
    ensures Needed(at, []) == at + 8
  {
  }

  /** Frames ahead of one that is whole on the wire are whole too. */
  lemma WholeAhead(frames: seq<Frame>, i: nat, j: nat)
    requires i <= j < |frames|
    ensures |Wire(frames[..i])| + |FrameBytes(frames[i])| == |Wire(frames[..i + 1])| <= |Wire(frames[..j + 1])|
  {
    hide Wire, FrameBytes;
    WireSplit(frames, i);
    WireSplit(frames[..j + 1], i + 1);
    assert frames[..j + 1][..i + 1] == frames[..i + 1];
  }

  /** A worker whose Stop is on the socket whole has its next frame, or more bytes of it to read. */
  lemma NextComes(run: Executor, refOf: map<nat, nat>, tasks: seq<Task>, k: Worker)
    requires WorkerOk(run, refOf, tasks, k) && HasStop(k)
    ensures (Needed(TASK_AT, k.req.got) == 0 && |k.req.got| >= 32) || (Needed(TASK_AT, k.req.got) > 0 && k.req.read < |k.req.bytes|)
  {
    hide Wire, FrameBytes, BodySize, Needed, CommandOf, AnswerTo, GoodRequest, HoldingOk;
    NeededIsNatural(TASK_AT, k.req);
    var i: nat :| StopIn(k, i);
    assert k.req.taken <= i;
    WholeAhead(k.req.sent, k.req.taken, i);
    if k.req.read == |k.req.bytes| {
      assert WellFramed(TASK_AT, k.req.sent[k.req.taken]);
      AllOfFrame(TASK_AT, k.req.sent[k.req.taken], k.req.got);
    }
  }

  lemma AllOfFrame(at: nat, f: Frame, got: seq<byte>)
    requires WellFramed(at, f) && |got| >= |FrameBytes(f)| && (got != [] ==> got <= FrameBytes(f))
    ensures Needed(at, got) == 0 && |got| >= at + 8
  {
    FrameIsNonempty(at, f);
    NeededOfPrefix(at, f, got);
  }

  /** What a process has to do next. */
  function ProcessTurn(w: nat, k: Worker): Action
    requires !k.process.PExited?
  {
    if k.process.PAnswering? then if k.process.todo == [] then ProcessAnswered(w) else ProcessWrites(w, |k.process.todo|)
    else if Needed(TASK_AT, k.req.got) == 0 then ProcessExecutes(w)
    else
      var unread := Excess(|k.req.bytes|, k.req.read);
      ProcessReads(w, if Needed(TASK_AT, k.req.got) < 0 || unread < Needed(TASK_AT, k.req.got) then unread else Needed(TASK_AT, k.req.got))
  }

  lemma ProcessCan(run: Executor, s: State, w: nat)
    requires Able(run, s) && w < |s.workers| && HasStop(s.workers[w]) && !s.workers[w].process.PExited?
    ensures Enabled(s, ProcessTurn(w, s.workers[w])) && ByWorker(ProcessTurn(w, s.workers[w]))
  {
    hide PlacesOk, RefsOk, SubmittersOk, ShutdownOk, WorkerOk, CalmInv, ProgressOk, AllReach, HasStop, Needed;
    assert WorkerOk(run, s.refOf, s.tasks, s.workers[w]);
    NextComes(run, s.refOf, s.tasks, s.workers[w]);
  }

  /** What a reader has to do next once its worker has left. */
  function ReaderTurn(w: nat, k: Worker): Action
    requires !k.reader.RExited?
  {
    if k.reader.RHolding? then ReaderCompletes(w)
    else
      var unread, needed := Excess(|k.resp.bytes|, k.resp.read), Needed(RESULT_AT, k.resp.got);
      if needed == 0 then ReaderLooksUp(w)
      else if unread == 0 then ReaderSeesEof(w)
      else ReaderReads(w, if needed < 0 || unread < needed then unread else needed)
  }

  lemma HoldingIsComplete(run: Executor, s: State, w: nat)
    requires Inv(run, s) && GoodExecutor(run) && w < |s.workers| && s.workers[w].reader.RHolding?
    ensures var r := s.workers[w].reader; r.ref < |s.futures| == |s.tasks| == |s.completions| && |r.f.header| == 24
  {
    hide PlacesOk, SubmittersOk, ShutdownOk, RequestsOk, AnswersOk, Answer, StateOk;
    assert WorkerOk(run, s.refOf, s.tasks, s.workers[w]);
    var r := s.workers[w].reader;
    AnswerDelivers(None, r.id, run(s.tasks[r.ref].executor, s.tasks[r.ref].payload));
  }

  lemma LinksInside(run: Executor, s: State, w: nat)
    requires Able(run, s) && w < |s.workers|
    ensures var k := s.workers[w];
            && k.req.taken <= |k.req.sent| && k.req.read <= |k.req.bytes| && k.resp.taken <= |k.resp.sent| && k.resp.read <= |k.resp.bytes|
            && (Needed(TASK_AT, k.req.got) == 0 ==> k.req.taken < |k.req.sent|)
            && (Needed(RESULT_AT, k.resp.got) == 0 ==> k.resp.taken < |k.resp.sent| && |k.resp.got| >= 24)
            && Needed(RESULT_AT, k.resp.got) >= 0
  {
    hide PlacesOk, RefsOk, SubmittersOk, ShutdownOk, CalmInv, ProgressOk, AllReach, Needed, Wire, FrameBytes, WellFramed, GoodRequest,
         HoldingOk;
    assert WorkerOk(run, s.refOf, s.tasks, s.workers[w]);
    NeededIsNatural(TASK_AT, s.workers[w].req);
    NeededIsNatural(RESULT_AT, s.workers[w].resp);
  }

  lemma ReaderCan(run: Executor, s: State, w: nat)
    requires Able(run, s) && GoodExecutor(run) && w < |s.workers| && s.workers[w].process.PExited? && !s.workers[w].reader.RExited?
    ensures Enabled(s, ReaderTurn(w, s.workers[w])) && ByWorker(ReaderTurn(w, s.workers[w]))
  {
    hide Able, Inv, Orderly, Needed, GoodExecutor;
    AbleIsInv(run, s);
    LinksInside(run, s, w);
    if s.workers[w].reader.RHolding? {
      HoldingIsComplete(run, s, w);
    }
  }

  lemma FailingInRange(run: Executor, s: State, id: nat)
    requires Inv(run, s) && s.shutdown.Failing? && id in s.shutdown.todo
    ensures s.shutdown.todo[id] < |s.futures| == |s.completions|
  {
    hide WorkersOk, SubmittersOk, ShutdownOk, StateOk;
    assert id in SwappedHandlers(s.shutdown);
  }

  /** The thread that holds the mutex of worker i goes on with its request, or gives up on a socket that is given up. */
  lemma HolderCan(run: Executor, s: State, i: nat) returns (a: Action)
    requires Able(run, s) && s.shutdown == Stopping(i) && i < |s.workers| && s.workers[i].writer.Writer?
    ensures Enabled(s, a) && Settles(s, a)
  {
    hide Able;
    var p := HolderSubmits(run, s, i);
    var k := s.workers[i];
    a := if k.broken then SubmitFails(p) else if k.writer.todo == [] then SubmitReturns(p) else SubmitWrites(p, |k.writer.todo|);
  }

  lemma StopCan(run: Executor, s: State, i: nat) returns (a: Action)
    requires Able(run, s) && s.shutdown == SendingStop(i)
    ensures Enabled(s, a) && Settles(s, a)
  {
    hide Able;
    StopIsHeld(run, s, i);
    var k := s.workers[i];
    a := if k.broken then StopFails else if k.writer.todo == [] then StopDone else StopWrites(|k.writer.todo|);
  }

  /** Until its reader can be joined, a worker or its reader has something to do. */
  lemma WorkerCan(run: Executor, s: State, w: nat) returns (a: Action)
    requires Able(run, s) && GoodExecutor(run) && w < |s.workers| && HasStop(s.workers[w]) && !s.workers[w].reader.RExited?
    ensures Enabled(s, a) && Settles(s, a)
  {
    hide Able, Enabled, GoodExecutor, Needed, HasStop;
    if s.workers[w].process.PExited? {
      ReaderCan(run, s, w);
      a := ReaderTurn(w, s.workers[w]);
    } else {
      ProcessCan(run, s, w);
      a := ProcessTurn(w, s.workers[w]);
    }
  }

  /** Shutdown itself, or the thread or worker it waits for, has a step until Shutdown has returned. */
  lemma NextStep(run: Executor, s: State) returns (a: Action)
    requires Able(run, s) && GoodExecutor(run) && !s.shutdown.Finished?
    ensures Enabled(s, a) && Settles(s, a)
  {
    hide Able, Inv, Orderly, GoodExecutor, HasStop;
    AbleIsInv(run, s);
    StoppingInRange(s);
    match s.shutdown
    case Running => RunningIsNotStopping(run, s); a := ShutdownBegins;
    case Stopping(i) =>
      if i == |s.workers| { a := Joins; }
      else if s.workers[i].writer.Nobody? { a := StopLocks; }
      else { a := HolderCan(run, s, i); }
    case SendingStop(i) => a := StopCan(run, s, i);
    case Joining(i) =>
      if i == |s.workers| { a := Closes; }
      else if s.workers[i].reader.RExited? { a := Joins; }
      else { JoiningHasStops(run, s); a := WorkerCan(run, s, i); }
    case Swapping => a := Swaps;
    case Failing(todo) =>
      if todo == map[] { a := ShutdownReturns; }
      else {
        var id :| id in todo;
        FailingInRange(run, s, id);
        a := FailsOne(id);
      }
  }

  // ---------- Every run ends ----------

  /** From every state in which each Stop can arrive, some calm run brings Shutdown to its end. */
  lemma {:induction false} CanFinish(run: Executor, s: State) returns (acts: seq<Action>, t: State)
    requires Able(run, s) && GoodExecutor(run)
    ensures Goes(run, s, acts, t) && t.shutdown.Finished?
    decreases Work(run, s)
  {
    hide Able, Goes, GoodExecutor, Enabled, Apply, Work;
    if s.shutdown.Finished? {
      acts, t := [], s;
      GoesNowhere(run, s);
    } else {
      var a := NextStep(run, s);
      Step(run, s, a);
      GoesOne(run, s, a);
      var rest;
      rest, t := CanFinish(run, Apply(run, s, a));
      GoesThen(run, s, [a], Apply(run, s, a), rest, t);
      acts := [a] + rest;
    }
  }

  ghost predicate SettlingRun(run: Executor, s: State, acts: seq<Action>)
    requires ValidRun(run, s, acts)
    decreases |acts|
  {
    acts == [] || (Settles(s, acts[0]) && SettlingRun(run, Apply(run, s, acts[0]), acts[1..]))
  }

  /**
   Not only some: from a state in which each Stop can arrive every run without new tasks, deaths,
   errors and failed writes is bounded, and one that cannot be continued has brought Shutdown to its
   end, whatever the threads did in between.
   */
  lemma {:induction false} SettlingEnds(run: Executor, s: State, acts: seq<Action>)
    requires Able(run, s) && GoodExecutor(run) && ValidRun(run, s, acts) && SettlingRun(run, s, acts)
    ensures |acts| + Work(run, Final(run, s, acts)) <= Work(run, s)
    ensures (forall a :: Enabled(Final(run, s, acts), a) ==> !Settles(Final(run, s, acts), a)) ==>
              Final(run, s, acts).shutdown.Finished?
    decreases |acts|
  {
    hide Able, GoodExecutor, Enabled, Apply, Work, Settles;
    if acts == [] {
      if !s.shutdown.Finished? {
        var a := NextStep(run, s);
      }
    } else {
      Step(run, s, acts[0]);
      SettlingEnds(run, Apply(run, s, acts[0]), acts[1..]);
    }
  }

  // ---------- The exact condition ----------

  ghost predicate CanEnd(run: Executor, s: State) {
    exists more :: ValidRun(run, s, more) && Calm(more) && Final(run, s, more).shutdown.Finished?
  }

  /**
   After a run in which no worker died and no reader met an error, such a run can be continued until
   Shutdown has returned if and only if every worker's Stop is on its socket, or its socket has not
   been given up.
   */
  lemma ShutdownEndsExactlyIf(run: Executor, submitters: nat, workers: nat, acts: seq<Action>)
    requires GoodExecutor(run) && ValidRun(run, Init(submitters, workers), acts) && Calm(acts)
    ensures var s := Final(run, Init(submitters, workers), acts);
            CanEnd(run, s) <==> forall w :: 0 <= w < |s.workers| ==> !s.workers[w].broken || HasStop(s.workers[w])
  {
    hide Sane, HasStop, GoodExecutor;
    var s := ReachedSane(run, submitters, workers, acts);
    if w :| 0 <= w < |s.workers| && s.workers[w].broken && !HasStop(s.workers[w]) {
      forall more | ValidRun(run, s, more) && Calm(more)
        ensures !Final(run, s, more).shutdown.Finished?
      {
        StuckForever(run, s, w, more);
      }
    } else {
      var more, t := CanFinish(run, s);
      assert ValidRun(run, s, more) && Calm(more) && Final(run, s, more).shutdown.Finished?;
    }
  }

  /** No step is left but new tasks, deaths and errors. */
  ghost predicate AtRest(s: State) {
    forall a :: Enabled(s, a) && CalmStepOf(a) ==> a.MakeState?
  }

  lemma RestEnds(run: Executor, s: State)
    requires Sane(run, s) && GoodExecutor(run) && AtRest(s)
    ensures s.shutdown.Finished? <==> AllReach(s)
  {
    hide Sane, StopReaches, GoodExecutor, Enabled;
    if AllReach(s) && !s.shutdown.Finished? {
      var a := NextStep(run, s);
    }
    if w :| 0 <= w < |s.workers| && !StopReaches(s.workers[w]) {
      NotReached(run, s, w);
    }
  }

  lemma AbleIsInv(run: Executor, s: State)
    requires Able(run, s)
    ensures Inv(run, s) && Orderly(s)
  {
    hide Inv, CalmInv, Orderly, AllReach;
  }

  lemma SaneIsInv(run: Executor, s: State)
    requires Sane(run, s)
    ensures Inv(run, s) && Orderly(s)
  {
    hide Inv, CalmInv, Orderly;
  }

  lemma NotReached(run: Executor, s: State, w: nat)
    requires Sane(run, s) && w < |s.workers| && !StopReaches(s.workers[w])
    ensures !s.shutdown.Finished?
  {
    hide Sane, HasStop;
    StuckIsNotFinished(run, s, w);
  }

  /**
   After a run in which no worker died and no reader met an error, every such run without new tasks,
   whatever writes fail, is bounded by the work there is; and one that is continued until nothing is
   left to do has brought Shutdown to its end if and only if every worker's Stop is on its socket, or
   its socket has not been given up.
   */
  lemma EveryRunEnds(run: Executor, submitters: nat, workers: nat, acts: seq<Action>, more: seq<Action>)
    requires GoodExecutor(run) && ValidRun(run, Init(submitters, workers), acts) && Calm(acts)
    requires ValidRun(run, Final(run, Init(submitters, workers), acts), more) && Calm(more) && NoNewTasks(more)
    ensures var s := Final(run, Init(submitters, workers), acts);
            var t := Final(run, s, more);
            && |more| + Work(run, t) <= Work(run, s)
            && (AtRest(t) ==> (t.shutdown.Finished? <==> AllReach(t)))
  {
    hide Inv, Sane, AllReach, AtRest, GoodExecutor, Work, Enabled, Apply, NoNewTasks;
    var s := ReachedSane(run, submitters, workers, acts);
    SaneIsInv(run, s);
    WorkBounds(run, s, more);
    RunSane(run, s, more);
    if AtRest(Final(run, s, more)) {
      RestEnds(run, Final(run, s, more));
    }
  }

  // ---------- When workers die ----------

  lemma {:induction false} RunOrderly(run: Executor, s: State, acts: seq<Action>)
    requires Orderly(s) && ValidRun(run, s, acts)
    ensures Orderly(Final(run, s, acts))
    decreases |acts|
  {
    hide Orderly, Apply, Enabled;
    if acts != [] {
      var a := acts[0];
      if BySubmitter(a) { SubmitOrderly(run, s, a); }
      else if ByWorker(a) { WorkerOrderly(run, s, a); }
      else { ShutdownOrderly(run, s, a); }
      RunOrderly(run, Apply(run, s, a), acts[1..]);
    }
  }

  /** The mutex of worker i is free, or the thread that holds it can give up. */
  lemma WriterCan(s: State, i: nat) returns (a: Action)
    requires Orderly(s) && s.shutdown == Stopping(i) && i < |s.workers|
    ensures Enabled(s, a) && (a.StopLocks? || a.SubmitFails?)
  {
    assert MutexOk(s, i);
    a := if s.workers[i].writer.Nobody? then StopLocks else SubmitFails(s.workers[i].writer.who.p);
  }

  /** Until Shutdown has returned it has a step, or what it waits for can fail or end. */
  lemma AnyStep(run: Executor, s: State) returns (a: Action)
    requires Inv(run, s) && Orderly(s) && GoodExecutor(run) && !s.shutdown.Finished?
    ensures Enabled(s, a) && !a.MakeState?
  {
    hide Inv, GoodExecutor, MutexOk, Needed;
    match s.shutdown
    case Running => RunningIsNotStopping(run, s); a := ShutdownBegins;
    case Stopping(i) =>
      if i == |s.workers| { a := Joins; }
      else { a := WriterCan(s, i); }
    case SendingStop(i) => a := StopFails;
    case Joining(i) =>
      if i == |s.workers| { a := Closes; }
      else if s.workers[i].reader.RExited? { a := Joins; }
      else if s.workers[i].reader.RReading? { a := ReaderErrs(i); }
      else { HoldingIsComplete(run, s, i); a := ReaderCompletes(i); }
    case Swapping => a := Swaps;
    case Failing(todo) =>
      if todo == map[] { a := ShutdownReturns; }
      else {
        var id :| id in todo;
        FailingInRange(run, s, id);
        a := FailsOne(id);
      }
  }

  /**
   Any run at all, with deaths, errors and failed writes, is bounded once no new tasks are made; and if
   it goes on until nothing more can happen, so that all workers have left or died, Shutdown has returned.
   */
  lemma DeathsFreeShutdown(run: Executor, submitters: nat, workers: nat, acts: seq<Action>, more: seq<Action>)
    requires GoodExecutor(run) && ValidRun(run, Init(submitters, workers), acts)
    requires ValidRun(run, Final(run, Init(submitters, workers), acts), more) && NoNewTasks(more)
    ensures var s := Final(run, Init(submitters, workers), acts);
            var t := Final(run, s, more);
            && |more| + Work(run, t) <= Work(run, s)
            && ((forall a :: Enabled(t, a) ==> a.MakeState?) ==> t.shutdown.Finished?)
  {
    hide Inv, Orderly, GoodExecutor, Work, Enabled, Apply;
    var s0 := Init(submitters, workers);
    InitInv(run, submitters, workers);
    InitOrderly(submitters, workers);
    RunInv(run, s0, acts);
    RunOrderly(run, s0, acts);
    var s := Final(run, s0, acts);
    WorkBounds(run, s, more);
    RunInv(run, s, more);
    RunOrderly(run, s, more);
    var t := Final(run, s, more);
    if !t.shutdown.Finished? {
      var a := AnyStep(run, t);
    }
  }

  lemma InitOrderly(submitters: nat, workers: nat)
    ensures Orderly(Init(submitters, workers))
  {
  }

  // ---------- Runs that hang ----------

  /** Making the shared state, drawing an id, registering the handler. */
  lemma ReachRegistered(run: Executor, s: State, p: nat, task: Task) returns (acts: seq<Action>, t: State)
    requires |s.idOf| == |s.futures| == |s.tasks| && s.nextId < WORD64 && p < |s.submitters| && s.submitters[p].SIdle?
    requires task.executor < WORD64 && |task.payload| < WORD64
    ensures Goes(run, s, acts, t)
    ensures var ref, id := |s.futures|, s.nextId;
            t == s.(submitters := s.submitters[p := SRegistered(ref, id)], futures := s.futures + [Unready],
                    tasks := s.tasks + [task], completions := s.completions + [0], idOf := s.idOf + [id],
                    nextId := id + 1, refOf := s.refOf[id := ref], pending := s.pending[id := ref],
                    place := s.place[id := InPending])
  {
    var s1 := Apply(run, s, MakeState(p, task));
    var s2 := Apply(run, s1, DrawId(p));
    t := Apply(run, s2, Register(p));
    GoesOne(run, s, MakeState(p, task));
    GoesOne(run, s1, DrawId(p));
    GoesOne(run, s2, Register(p));
    hide Goes, Enabled, Apply;
    GoesThen(run, s, [MakeState(p, task)], s1, [DrawId(p)], s2);
    GoesThen(run, s, [MakeState(p, task)] + [DrawId(p)], s2, [Register(p)], t);
    acts := [MakeState(p, task)] + [DrawId(p)] + [Register(p)];
    assert (s.idOf + [0])[|s.futures| := s.nextId] == s.idOf + [s.nextId];
    assert t.submitters == s.submitters[p := SRegistered(|s.futures|, s.nextId)];
  }

  /** Passing the test of stopping_ and taking the mutex of the worker whose turn it is. */
  lemma ReachMutex(run: Executor, s: State, p: nat) returns (acts: seq<Action>, t: State)
    requires p < |s.submitters| && s.submitters[p].SRegistered? && s.submitters[p].ref < |s.tasks| && !s.stopping && |s.workers| > 0
    requires s.workers[s.nextWorker % |s.workers|].writer == Nobody
    ensures Goes(run, s, acts, t)
    ensures var w, ref, id := s.nextWorker % |s.workers|, s.submitters[p].ref, s.submitters[p].id;
            t == s.(submitters := s.submitters[p := SWriting(ref, id, w)], nextWorker := s.nextWorker + 1,
                    accepted := s.accepted + {id},
                    workers := s.workers[w := Lock(s.workers[w], BySubmit(p), RequestFrame(id, s.tasks[ref]))])
  {
    hide RequestFrame, FrameBytes, Lock;
    var s1 := Apply(run, s, TestStopping(p));
    t := Apply(run, s1, LockWriter(p));
    GoesOne(run, s, TestStopping(p));
    GoesOne(run, s1, LockWriter(p));
    hide Goes, Enabled, Apply;
    GoesThen(run, s, [TestStopping(p)], s1, [LockWriter(p)], t);
    acts := [TestStopping(p)] + [LockWriter(p)];
    assert t.submitters == s.submitters[p := t.submitters[p]];
  }

  /** A Submit up to where it has the mutex. */
  lemma ReachWriting(run: Executor, s: State, p: nat, task: Task) returns (acts: seq<Action>, t: State)
    requires |s.idOf| == |s.futures| == |s.tasks| && s.nextId < WORD64
    requires p < |s.submitters| && s.submitters[p].SIdle? && !s.stopping && |s.workers| > 0
    requires s.workers[s.nextWorker % |s.workers|].writer == Nobody
    requires task.executor < WORD64 && |task.payload| < WORD64
    ensures Goes(run, s, acts, t)
    ensures var w, ref, id := s.nextWorker % |s.workers|, |s.futures|, s.nextId;
            && t.submitters == s.submitters[p := SWriting(ref, id, w)]
            && t.workers == s.workers[w := Lock(s.workers[w], BySubmit(p), RequestFrame(id, task))]
            && t.futures == s.futures + [Unready] && t.tasks == s.tasks + [task]
            && t.pending == s.pending[id := ref] && t.nextId == id + 1 && t.nextWorker == s.nextWorker + 1
            && t.returned == s.returned && !t.stopping
  {
    hide RequestFrame, FrameBytes, Lock, Goes;
    var more, mid := [], s;
    acts, mid := ReachRegistered(run, s, p, task);
    more, t := ReachMutex(run, mid, p);
    GoesThen(run, s, acts, mid, more, t);
    acts := acts + more;
    assert t.submitters == s.submitters[p := t.submitters[p]];
  }

  /** In a fresh pool: the mutex of worker 0 is taken, and nothing is written yet. */
  lemma ReachLock(run: Executor, submitters: nat, workers: nat, task: Task) returns (acts: seq<Action>, t: State)
    requires submitters > 0 && workers > 0 && task.executor < WORD64 && |task.payload| < WORD64
    ensures Goes(run, Init(submitters, workers), acts, t)
    ensures |t.submitters| == submitters && |t.workers| == workers && t.submitters[0] == SWriting(0, 1, 0)
    ensures t.workers[0].writer.Writer? && t.workers[0].writer.who == BySubmit(0) && t.workers[0].req.bytes == []
    ensures t.workers[0].req.sent == [RequestFrame(1, task)]
  {
    hide RequestFrame, FrameBytes, Goes;
    assert 0 % workers == 0;
    acts, t := ReachWriting(run, Init(submitters, workers), 0, task);
  }

  lemma GoesOne(run: Executor, s: State, a: Action)
    requires Enabled(s, a) && CalmStepOf(a)
    ensures Goes(run, s, [a], Apply(run, s, a))
  {
    hide Enabled, Apply;
    var t := Apply(run, s, a);
    assert ValidRun(run, t, []) && Final(run, t, []) == t;
    assert [a][1..] == [];
  }

  lemma NothingWrittenNoStop(k: Worker, f: Frame)
    requires k.req.sent == [f] && |f.header| == 32 && k.req.bytes == []
    ensures !HasStop(k)
  {
    WireOne(f);
    assert k.req.sent[..1] == [f];
  }

  /**
   A Submit whose write fails, on any pool and for any task, is enough, if nothing can be written to
   that socket afterwards: no run in which no worker dies and no reader meets an error then lets
   Shutdown return.
   */
  lemma FailedWriteHangs(run: Executor, submitters: nat, workers: nat, task: Task) returns (acts: seq<Action>)
    requires submitters > 0 && workers > 0 && task.executor < WORD64 && |task.payload| < WORD64 && GoodExecutor(run)
    ensures ValidRun(run, Init(submitters, workers), acts) && Calm(acts)
    ensures !CanEnd(run, Final(run, Init(submitters, workers), acts))
  {
    hide RequestFrame, HasStop, GoodExecutor, CanEnd, Init;
    var s, t := Init(submitters, workers), Init(submitters, workers);
    acts, t := ReachLock(run, submitters, workers, task);
    GoesOne(run, t, SubmitFails(0));
    GoesThen(run, s, acts, t, [SubmitFails(0)], Apply(run, t, SubmitFails(0)));
    acts := acts + [SubmitFails(0)];
    RequestHeader(1, task);
    NothingWrittenNoStop(Final(run, s, acts).workers[0], RequestFrame(1, task));
    ShutdownEndsExactlyIf(run, submitters, workers, acts);
  }

  /**
   A Stop whose own write fails is enough: Shutdown swallows the exception and sends no other. Here it
   does not matter whether the socket takes anything afterwards.
   */
  lemma FailedStopHangs(run: Executor, submitters: nat, workers: nat) returns (acts: seq<Action>)
    requires workers > 0 && GoodExecutor(run)
    ensures acts == [ShutdownBegins, StopLocks, StopFails]
    ensures ValidRun(run, Init(submitters, workers), acts) && Calm(acts)
    ensures !CanEnd(run, Final(run, Init(submitters, workers), acts))
  {
    hide StopFrame, FrameBytes, HasStop, GoodExecutor, CanEnd, CommandOf;
    var s0 := Init(submitters, workers);
    var s1 := Apply(run, s0, ShutdownBegins);
    var s2 := Apply(run, s1, StopLocks);
    var s3 := Apply(run, s2, StopFails);
    GoesOne(run, s0, ShutdownBegins);
    GoesOne(run, s1, StopLocks);
    GoesOne(run, s2, StopFails);
    GoesThen(run, s0, [ShutdownBegins], s1, [StopLocks], s2);
    GoesThen(run, s0, [ShutdownBegins] + [StopLocks], s2, [StopFails], s3);
    acts := [ShutdownBegins] + [StopLocks] + [StopFails];
    StopFrameStops();
    NothingWrittenNoStop(s3.workers[0], StopFrame());
    ShutdownEndsExactlyIf(run, submitters, workers, acts);
  }
}
