/**
 Every task is sent at most once, on one socket, and so executed at most once by all workers
 together; and a graceful shutdown parts the requests exactly at each worker's first Stop.
 */
module PoolOnce {
  import opened PoolFraming
  import opened PoolTasks
  import opened PoolMachine
  import opened PoolSafety
  import opened PoolTheorems
  import opened PoolGraceful

  /** Request i sent to worker w is task `id`. */
  ghost predicate RequestAt(s: State, w: nat, i: nat, id: nat) {
    w < |s.workers| && i < |s.workers[w].req.sent| && IsTask(s.workers[w].req.sent[i])
    && TaskIdOf(s.workers[w].req.sent[i]) == id
  }

  /** A thread of Submit that has drawn an id and not begun to send it. */
  predicate HoldsId(pc: Submitter) {
    pc.SNumbered? || pc.SRegistered? || pc.SChosen?
  }

  ghost predicate SentOnce(s: State) {
    forall w: nat, i: nat, v: nat, j: nat, id: nat :: RequestAt(s, w, i, id) && RequestAt(s, v, j, id) ==> w == v && i == j
  }

  ghost predicate HeldUnsent(s: State) {
    forall p: nat, w: nat, i: nat :: p < |s.submitters| && HoldsId(s.submitters[p]) ==> !RequestAt(s, w, i, s.submitters[p].id)
  }

  ghost predicate HeldOnce(s: State) {
    forall p, q :: 0 <= p < |s.submitters| && 0 <= q < |s.submitters| && p != q ==>
      HoldsId(s.submitters[p]) && HoldsId(s.submitters[q]) ==> s.submitters[p].id != s.submitters[q].id
  }

  /** Its answer has been read too. */
  ghost predicate AnsweredAt(s: State, w: nat, i: nat, id: nat) {
    RequestAt(s, w, i, id) && i < s.workers[w].resp.taken
  }

  /** A handler a reader has taken belongs to an answer that reader has read. */
  ghost predicate ServedByAnswer(s: State) {
    forall id :: Served(s.place, id) ==> exists w: nat, i: nat :: AnsweredAt(s, w, i, id)
  }

  ghost predicate OnceInv(s: State) {
    SentOnce(s) && HeldUnsent(s) && HeldOnce(s) && ServedByAnswer(s)
  }

  /** No task is sent, at most Stops. */
  ghost predicate NoNewTask(s: State, s': State) {
    && |s'.workers| == |s.workers|
    && (forall w :: 0 <= w < |s.workers| ==>
          || s'.workers[w].req.sent == s.workers[w].req.sent
          || s'.workers[w].req.sent == s.workers[w].req.sent + [StopFrame()])
    && (forall w :: 0 <= w < |s.workers| ==> s.workers[w].resp.taken <= s'.workers[w].resp.taken)
  }

  lemma RequestsStay(s: State, s': State, w: nat, i: nat, id: nat)
    requires NoNewTask(s, s')
    ensures RequestAt(s', w, i, id) <==> RequestAt(s, w, i, id)
    ensures AnsweredAt(s, w, i, id) ==> AnsweredAt(s', w, i, id)
  {
    hide TaskIdOf, IsTask, StopFrame;
    StopIsNoTask();
  }

  /** No task is sent, ids held are still held, and no handler is newly taken without an answer. */
  lemma SameRequests(s: State, s': State)
    requires OnceInv(s) && NoNewTask(s, s') && |s'.submitters| == |s.submitters|
    requires forall p :: 0 <= p < |s.submitters| && HoldsId(s'.submitters[p]) ==>
               HoldsId(s.submitters[p]) && s'.submitters[p].id == s.submitters[p].id
    requires forall id :: Served(s'.place, id) ==> Served(s.place, id) || exists w: nat, i: nat :: AnsweredAt(s', w, i, id)
    ensures OnceInv(s')
  {
    hide RequestAt, AnsweredAt, Served, NoNewTask;
    forall w: nat, i: nat, id: nat
      ensures RequestAt(s', w, i, id) <==> RequestAt(s, w, i, id)
    {
      RequestsStay(s, s', w, i, id);
    }
    forall id | Served(s'.place, id)
      ensures exists w: nat, i: nat :: AnsweredAt(s', w, i, id)
    {
      if Served(s.place, id) {
        var w: nat, i: nat :| AnsweredAt(s, w, i, id);
        RequestsStay(s, s', w, i, id);
      }
    }
    forall p: nat, w: nat, i: nat | p < |s.submitters| && HoldsId(s'.submitters[p])
      ensures !RequestAt(s', w, i, s'.submitters[p].id)
    {
      assert !RequestAt(s, w, i, s.submitters[p].id);
    }
  }

  /** A drawn id is new. */
  lemma DrawOnce(run: Executor, s: State, p: nat)
    requires Inv(run, s) && OnceInv(s) && SubmitEnabled(s, DrawId(p), p)
    ensures OnceInv(ApplySubmit(s, DrawId(p), p))
  {
    hide Served, PlacesOk, RefsOk, WorkersOk, SubmittersOk, ShutdownOk, RequestAt, AnsweredAt;
    var s' := ApplySubmit(s, DrawId(p), p);
    DrawIdFresh(run, s);
    forall w: nat, i: nat, id: nat
      ensures RequestAt(s', w, i, id) <==> RequestAt(s, w, i, id)
      ensures AnsweredAt(s, w, i, id) ==> AnsweredAt(s', w, i, id)
    {
      RequestsStay(s, s', w, i, id);
    }
  }

  lemma DrawIdFresh(run: Executor, s: State)
    requires Inv(run, s)
    ensures forall w: nat, i: nat :: !RequestAt(s, w, i, s.nextId)
    ensures forall p :: 0 <= p < |s.submitters| && HoldsId(s.submitters[p]) ==> s.submitters[p].id != s.nextId
  {
    hide StateOk, PlacesOk, ShutdownOk, WorkerOk, TaskIdOf, IsTask, CommandOf;
    forall w: nat, i: nat
      ensures !RequestAt(s, w, i, s.nextId)
    {
      if RequestAt(s, w, i, s.nextId) {
        RequestIsDrawn(run, s, w, i);
        assert false;
      }
    }
    forall p | 0 <= p < |s.submitters| && HoldsId(s.submitters[p])
      ensures s.submitters[p].id != s.nextId
    {
      assert SubmitterOk(s, p);
    }
  }

  lemma RequestIsDrawn(run: Executor, s: State, w: nat, i: nat)
    requires WorkersOk(run, s) && w < |s.workers| && i < |s.workers[w].req.sent| && IsTask(s.workers[w].req.sent[i])
    ensures TaskIdOf(s.workers[w].req.sent[i]) in s.refOf
  {
    assert WorkerOk(run, s.refOf, s.tasks, s.workers[w]);
    assert GoodRequest(s.refOf, s.tasks, s.workers[w].req.sent[i]);
  }

  /** One more request, of the id its thread held alone. */
  lemma LockOnce(run: Executor, s: State, p: nat)
    requires Inv(run, s) && OnceInv(s) && SubmitEnabled(s, LockWriter(p), p)
    ensures OnceInv(ApplySubmit(s, LockWriter(p), p))
  {
    hide Served, PlacesOk, RefsOk, ShutdownOk, WorkersOk, RequestFrame, RequestAt, AnsweredAt, SubmittersOk;
    var s' := ApplySubmit(s, LockWriter(p), p);
    forall w: nat, i: nat, id: nat
      ensures RequestAt(s', w, i, id) <==>
              RequestAt(s, w, i, id) || (w == s.submitters[p].w && i == |s.workers[w].req.sent| && id == s.submitters[p].id)
      ensures AnsweredAt(s, w, i, id) ==> AnsweredAt(s', w, i, id)
    {
      OneMoreRequest(run, s, p, w, i, id);
    }
  }

  lemma OneMoreRequest(run: Executor, s: State, p: nat, w: nat, i: nat, id: nat)
    requires Inv(run, s) && SubmitEnabled(s, LockWriter(p), p)
    ensures var s' := ApplySubmit(s, LockWriter(p), p);
            && (RequestAt(s', w, i, id) <==>
                RequestAt(s, w, i, id) || (w == s.submitters[p].w && i == |s.workers[w].req.sent| && id == s.submitters[p].id))
            && (AnsweredAt(s, w, i, id) ==> AnsweredAt(s', w, i, id))
  {
    hide PlacesOk, ShutdownOk, WorkersOk, StateOk, RequestFrame, IsTask, TaskIdOf;
    assert SubmitterOk(s, p);
    RequestHasId(s, p);
  }

  lemma SubmitOnce(run: Executor, s: State, a: Action)
    requires Inv(run, s) && OnceInv(s) && Enabled(s, a) && BySubmitter(a)
    ensures OnceInv(Apply(run, s, a))
  {
    if a.DrawId? { DrawOnce(run, s, a.p); }
    else if a.LockWriter? { LockOnce(run, s, a.p); }
    else { OtherSubmitOnce(run, s, a); }
  }

  lemma OtherSubmitOnce(run: Executor, s: State, a: Action)
    requires Inv(run, s) && OnceInv(s) && Enabled(s, a) && BySubmitter(a) && !a.DrawId? && !a.LockWriter?
    ensures OnceInv(Apply(run, s, a))
  {
    hide OnceInv, PlacesOk, RefsOk, WorkersOk, ShutdownOk, StopFrame, AnsweredAt;
    assert SubmitterOk(s, a.p);
    SameRequests(s, Apply(run, s, a));
  }

  lemma LookUpOnce(run: Executor, s: State, w: nat)
    requires Inv(run, s) && OnceInv(s) && WorkerEnabled(s, ReaderLooksUp(w), w) && GoodExecutor(run)
    ensures OnceInv(LookUp(s, w))
  {
    hide Inv, OnceInv, LookUp, AnsweredAt, NoNewTask, Served, GoodExecutor, LookedUpId, Needed;
    LookUpAnswered(run, s, w);
    LookUpServes(s, w);
    SameRequests(s, LookUp(s, w));
  }

  /** The id in the header of the response reader w has read whole. */
  function LookedUpId(s: State, w: nat): nat
    requires WorkerEnabled(s, ReaderLooksUp(w), w)
  {
    ResultIdOf(Frame(s.workers[w].resp.got[..24], s.workers[w].resp.got[24..]))
  }

  /** The answer looked up is now among those read. */
  lemma LookUpAnswered(run: Executor, s: State, w: nat)
    requires Inv(run, s) && WorkerEnabled(s, ReaderLooksUp(w), w) && GoodExecutor(run)
    ensures AnsweredAt(LookUp(s, w), w, s.workers[w].resp.taken, LookedUpId(s, w))
  {
    hide WorkerOk, PlacesOk, RefsOk, SubmittersOk, ShutdownOk, ResultIdOf, Needed, IsTask, TaskIdOf;
    var k := s.workers[w];
    assert WorkerOk(run, s.refOf, s.tasks, k);
    AnswerMatchesRequest(run, s.refOf, s.tasks, k);
  }

  lemma LookUpServes(s: State, w: nat)
    requires WorkerEnabled(s, ReaderLooksUp(w), w)
    ensures var s', id := LookUp(s, w), LookedUpId(s, w);
            && NoNewTask(s, s') && s'.submitters == s.submitters
            && forall i :: Served(s'.place, i) ==> Served(s.place, i) || i == id
  {
    hide ResultIdOf, Needed, StopFrame;
  }

  lemma WorkerOnce(run: Executor, s: State, a: Action)
    requires Inv(run, s) && OnceInv(s) && Enabled(s, a) && ByWorker(a) && GoodExecutor(run)
    ensures OnceInv(Apply(run, s, a))
  {
    if a.ReaderLooksUp? { LookUpOnce(run, s, a.w); }
    else {
      hide OnceInv, PlacesOk, RefsOk, SubmittersOk, WorkersOk, ShutdownOk, AnsweredAt, NoNewTask, Apply, Served;
      WorkerSendsNoTask(run, s, a);
      PlaceStays(run, s, a);
      SameRequests(s, Apply(run, s, a));
    }
  }

  lemma WorkerSendsNoTask(run: Executor, s: State, a: Action)
    requires Enabled(s, a) && ByWorker(a) && !a.ReaderLooksUp?
    ensures NoNewTask(s, Apply(run, s, a)) && Apply(run, s, a).submitters == s.submitters
  {
    hide Execute, Read, Write, Complete, Needed, StopFrame, LookUp, NoNewTask;
    ExecuteKeepsSent(run, s.workers[a.w]);
    OneWorkerNoTask(s, Apply(run, s, a), a.w);
  }

  lemma OneWorkerNoTask(s: State, s': State, w: nat)
    requires w < |s.workers| == |s'.workers| && s'.workers == s.workers[w := s'.workers[w]]
    requires s'.workers[w].req.sent == s.workers[w].req.sent && s'.workers[w].resp.taken == s.workers[w].resp.taken
    ensures NoNewTask(s, s')
  {
  }

  lemma ExecuteKeepsSent(run: Executor, k: Worker)
    ensures |k.req.got| >= 32 ==> Execute(run, k).req.sent == k.req.sent && Execute(run, k).resp.taken == k.resp.taken
    ensures forall n: nat :: k.req.read + n <= |k.req.bytes| ==> Read(k.req, n).sent == k.req.sent
    ensures forall n: nat :: k.resp.read + n <= |k.resp.bytes| ==> Read(k.resp, n).taken == k.resp.taken
    ensures forall piece :: Write(k.resp, piece).taken == k.resp.taken
  {
    hide CommandOf, Answer, TaskIdOf, ExecutorOf;
  }

  lemma CompletedWasServed(place: map<nat, Place>, x: nat)
    requires x in place && place[x].WithReader?
    ensures forall id :: Served(place[x := Completed], id) ==> Served(place, id)
  {
  }

  lemma PlaceStays(run: Executor, s: State, a: Action)
    requires PlacesOk(s) && Enabled(s, a) && ByWorker(a) && !a.ReaderLooksUp?
    ensures forall id :: Served(Apply(run, s, a).place, id) ==> Served(s.place, id)
  {
    hide Execute, Read, Write, Complete, Needed, LookUp, Served;
    var k := s.workers[a.w];
    if a.ReaderCompletes? {
      assert s.place[k.reader.id] == WithReader(a.w);
      CompletedWasServed(s.place, k.reader.id);
    }
  }

  lemma ShutdownOnce(run: Executor, s: State, a: Action)
    requires Inv(run, s) && OnceInv(s) && Enabled(s, a) && !BySubmitter(a) && !ByWorker(a)
    ensures OnceInv(Apply(run, s, a))
  {
    hide OnceInv, PlacesOk, RefsOk, SubmittersOk, WorkersOk, ShutdownOk, StopFrame, AnsweredAt;
    SameRequests(s, Apply(run, s, a));
  }

  lemma InitOnce(submitters: nat, workers: nat)
    ensures OnceInv(Init(submitters, workers))
  {
  }

  lemma {:induction false} RunOnce(run: Executor, s: State, acts: seq<Action>)
    requires Inv(run, s) && OnceInv(s) && ValidRun(run, s, acts) && GoodExecutor(run)
    ensures OnceInv(Final(run, s, acts))
    decreases |acts|
  {
    hide Inv, OnceInv, Apply, Enabled, GoodExecutor;
    if acts != [] {
      var a := acts[0];
      StepInv(run, s, a);
      if BySubmitter(a) { SubmitOnce(run, s, a); }
      else if ByWorker(a) { WorkerOnce(run, s, a); }
      else { ShutdownOnce(run, s, a); }
      RunOnce(run, Apply(run, s, a), acts[1..]);
    }
  }

  lemma ReachedOnce(run: Executor, submitters: nat, workers: nat, acts: seq<Action>) returns (s: State)
    requires GoodExecutor(run) && ValidRun(run, Init(submitters, workers), acts)
    ensures s == Final(run, Init(submitters, workers), acts) && Inv(run, s) && OnceInv(s)
  {
    hide Inv, OnceInv, GoodExecutor;
    s := Reached(run, submitters, workers, acts);
    InitInv(run, submitters, workers);
    InitOnce(submitters, workers);
    RunOnce(run, Init(submitters, workers), acts);
  }

  /** The process has taken and executed this request. */
  ghost predicate ExecutedAt(s: State, w: nat, i: nat, id: nat) {
    RequestAt(s, w, i, id) && i < s.workers[w].req.taken
  }

  /**
   At most once: two requests of the same task are the same request on the same socket; a future can
   hold a result only if that one request was executed.
   */
  lemma TasksRunAtMostOnce(run: Executor, submitters: nat, workers: nat, acts: seq<Action>)
    requires GoodExecutor(run) && ValidRun(run, Init(submitters, workers), acts)
    ensures var s := Final(run, Init(submitters, workers), acts);
            && (forall w: nat, i: nat, v: nat, j: nat, id: nat ::
                  RequestAt(s, w, i, id) && RequestAt(s, v, j, id) ==> w == v && i == j)
            && (forall id :: id in s.place && s.place[id] == Completed ==> exists w: nat, i: nat :: ExecutedAt(s, w, i, id))
  {
    hide PlacesOk, RefsOk, SubmittersOk, ShutdownOk, WorkerOk, IsTask, TaskIdOf;
    var s := ReachedOnce(run, submitters, workers, acts);
    forall id | id in s.place && s.place[id] == Completed
      ensures exists w: nat, i: nat :: ExecutedAt(s, w, i, id)
    {
      assert Served(s.place, id);
      var w: nat, i: nat :| AnsweredAt(s, w, i, id);
      TakenInside(run, s.refOf, s.tasks, s.workers[w]);
      assert ExecutedAt(s, w, i, id);
    }
  }

  /** No Stop lies ahead of request i on worker w's socket, nor at it. */
  ghost predicate AheadOfStop(s: State, w: nat, i: nat)
    requires w < |s.workers| && i < |s.workers[w].req.sent|
  {
    forall j :: 0 <= j <= i ==> IsTask(s.workers[w].req.sent[j])
  }

  /**
   A graceful shutdown parts the requests exactly at each worker's first Stop: if no worker dies and no
   reader meets an error, then once Shutdown has returned the task of a request was executed and
   answered if and only if no Stop lies ahead of it; its future then holds what its executor left,
   and the shutdown's error otherwise.
   */
  lemma StopParts(run: Executor, submitters: nat, workers: nat, acts: seq<Action>, w: nat, i: nat, id: nat)
    requires GoodExecutor(run) && ValidRun(run, Init(submitters, workers), acts) && Calm(acts)
    requires Final(run, Init(submitters, workers), acts).shutdown.Finished?
    requires RequestAt(Final(run, Init(submitters, workers), acts), w, i, id)
    ensures var s := Final(run, Init(submitters, workers), acts);
            && id in s.place && id in s.refOf && s.refOf[id] < |s.futures| == |s.tasks|
            && (s.place[id] == Completed <==> AheadOfStop(s, w, i))
            && var t := s.tasks[s.refOf[id]];
               s.futures[s.refOf[id]] ==
                 if AheadOfStop(s, w, i) then Delivery(t.resultSize, run(t.executor, t.payload)) else Failed(SHUTDOWN)
  {
    hide WorkerOk, PlacesOk, SubmittersOk, ShutdownOk, CommandOf, Delivery, Wire, SHUTDOWN;
    var s := ReachedOnce(run, submitters, workers, acts);
    InitInv(run, submitters, workers);
    InitCalm(submitters, workers);
    RunCalm(run, Init(submitters, workers), acts);
    assert CalmWorker(s.accepted, s.place, s.workers[w]);
    AcceptedRequest(s.accepted, s.place, s.workers[w], i);
    AcceptedPlace(run, s, id);
    if AheadOfStop(s, w, i) {
      QueuedTasksFinish(run, submitters, workers, acts, w, i);
      AheadIsCompleted(run, s, w, i, id);
    } else if s.place[id] == Completed {
      TakenAreTasks(run, s, w, i, id);
      assert false;
    }
    assert StateOk(run, s, id);
  }

  lemma AcceptedPlace(run: Executor, s: State, id: nat)
    requires Inv(run, s) && s.shutdown.Finished? && id in s.accepted
    ensures id in s.place && id in s.refOf && (s.place[id] == Completed || s.place[id] == Abandoned)
  {
    hide WorkersOk, SubmitterOk, Distinct, StateOk;
  }

  /** A request whose handler was used by a reader was taken, and no Stop lies ahead of it. */
  lemma TakenAreTasks(run: Executor, s: State, w: nat, i: nat, id: nat)
    requires Inv(run, s) && OnceInv(s) && RequestAt(s, w, i, id) && id in s.place && s.place[id] == Completed
    ensures AheadOfStop(s, w, i)
  {
    hide PlacesOk, RefsOk, SubmittersOk, ShutdownOk, CommandOf, TaskIdOf, Wire, Answer, GoodRequest;
    assert Served(s.place, id);
    var v: nat, j: nat :| AnsweredAt(s, v, j, id);
    assert v == w && j == i;
    assert WorkerOk(run, s.refOf, s.tasks, s.workers[w]);
    TakenInside(run, s.refOf, s.tasks, s.workers[w]);
  }

  lemma AheadIsCompleted(run: Executor, s: State, w: nat, i: nat, id: nat)
    requires Inv(run, s) && CalmInv(s) && s.shutdown.Finished? && RequestAt(s, w, i, id) && AheadOfStop(s, w, i)
    ensures id in s.place && s.place[id] == Completed
  {
    hide RefsOk, SubmittersOk, CommandOf, TaskIdOf, Wire, LinkOk, Answer, GoodRequest;
    var k := s.workers[w];
    assert WorkerOk(run, s.refOf, s.tasks, k) && CalmWorker(s.accepted, s.place, k);
    TakenInside(run, s.refOf, s.tasks, k);
    assert k.reader.RExited?;
    assert i < k.req.taken;
    assert Served(s.place, id);
  }
}
