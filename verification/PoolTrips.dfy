/**
 What one thread does when nobody is in its way: a whole Submit of the machine, with the whole state it
 leaves, which is what the method of the class leaves.
 */
module PoolTrips {
  import opened Bytes
  import opened PoolFraming
  import opened PoolTasks
  import opened PoolMachine
  import opened PoolSafety
  import opened PoolTheorems
  import opened PoolGraceful
  import opened PoolProgress
  import opened PoolFinish

  /** Writing the request at once, and returning the future. */
  lemma FinishWriting(run: Executor, s: State, p: nat) returns (acts: seq<Action>, t: State)
    requires p < |s.submitters| && s.submitters[p].SWriting? && s.submitters[p].w < |s.workers|
    requires var k := s.workers[s.submitters[p].w]; !k.broken && k.writer.Writer? && k.writer.who == BySubmit(p) && k.writer.todo != []
    ensures Goes(run, s, acts, t)
    ensures var w := s.submitters[p].w; var k := s.workers[w];
            t == s.(submitters := s.submitters[p := SIdle], returned := s.returned + {s.submitters[p].ref},
                    workers := s.workers[w := k.(req := Write(k.req, k.writer.todo), writer := Nobody)])
  {
    var k := s.workers[s.submitters[p].w];
    var n := |k.writer.todo|;
    assert k.writer.todo[..n] == k.writer.todo && k.writer.todo[n..] == [];
    var mid := Apply(run, s, SubmitWrites(p, n));
    t := Apply(run, mid, SubmitReturns(p));
    GoesOne(run, s, SubmitWrites(p, n));
    GoesOne(run, mid, SubmitReturns(p));
    GoesThen(run, s, [SubmitWrites(p, n)], mid, [SubmitReturns(p)], t);
    acts := [SubmitWrites(p, n)] + [SubmitReturns(p)];
  }

  /**
   A Submit by one thread of a pool that is not stopping, to a worker whose mutex is free and whose
   socket takes the request: the machine can do it, and leaves what the method leaves. The future is
   returned, the handler registered under the new id, and the whole frame is on the socket of exactly
   the worker whose turn it is.
   */
  lemma SubmitTrip(run: Executor, s: State, p: nat, task: Task) returns (acts: seq<Action>, t: State)
    requires Inv(run, s) && p < |s.submitters| && s.submitters[p].SIdle? && !s.stopping && s.nextId < WORD64 && |s.workers| > 0
    requires var k := s.workers[s.nextWorker % |s.workers|]; k.writer == Nobody && !k.broken
    requires task.executor < WORD64 && |task.payload| < WORD64
    ensures Goes(run, s, acts, t) && (GoodExecutor(run) ==> Inv(run, t))
    ensures var w, ref := s.nextWorker % |s.workers|, |s.futures|;
            && |t.workers| == |s.workers| && (forall v :: 0 <= v < |s.workers| && v != w ==> t.workers[v] == s.workers[v])
            && t.workers[w].req.bytes == s.workers[w].req.bytes + FrameBytes(TaskFrame(1, s.nextId, task.executor, task.payload))
            && t.workers[w].writer == Nobody && t.workers[w].resp == s.workers[w].resp
            && t.futures == s.futures + [Unready] && t.tasks == s.tasks + [task]
            && t.pending == s.pending[s.nextId := ref] && t.nextId == s.nextId + 1 && t.nextWorker == s.nextWorker + 1
            && t.submitters == s.submitters && t.returned == s.returned + {ref} && !t.stopping
  {
    hide Inv, Goes, FrameBytes, RequestFrame, TaskFrame, Lock;
    Sizes(run, s);
    var more, mid := [], s;
    acts, mid := ReachWriting(run, s, p, task);
    RequestNotEmpty(s.nextId, task);
    Locked(s.workers[s.nextWorker % |s.workers|], BySubmit(p), RequestFrame(s.nextId, task));
    more, t := FinishWriting(run, mid, p);
    GoesThen(run, s, acts, mid, more, t);
    acts := acts + more;
    TripInv(run, s, acts, t);
    assert t.submitters == s.submitters;
  }

  lemma Locked(k: Worker, who: Who, f: Frame)
    ensures var k' := Lock(k, who, f);
            && k'.writer == Writer(who, FrameBytes(f)) && k'.broken == k.broken && k'.req.bytes == k.req.bytes && k'.resp == k.resp
  {
  }

  lemma TripInv(run: Executor, s: State, acts: seq<Action>, t: State)
    requires Inv(run, s) && Goes(run, s, acts, t)
    ensures GoodExecutor(run) ==> Inv(run, t)
  {
    hide Inv, Apply, Enabled, GoodExecutor;
    if GoodExecutor(run) { RunInv(run, s, acts); }
  }

  lemma Sizes(run: Executor, s: State)
    requires Inv(run, s)
    ensures |s.idOf| == |s.futures| == |s.tasks|
  {
    hide WorkersOk, PlacesOk, SubmittersOk, ShutdownOk;
  }

  lemma RequestNotEmpty(id: nat, task: Task)
    ensures FrameBytes(RequestFrame(id, task)) != [] && RequestFrame(id, task) == TaskFrame(1, id, task.executor, task.payload)
  {
    RequestHeader(id, task);
  }
}
