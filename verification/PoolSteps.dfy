/** Every step of the process pool keeps its invariant. */
module PoolSteps {
  import opened Bytes
  import opened PoolFraming
  import opened PoolTasks
  import opened PoolMachine
  import opened PoolSafety

  // ---------- Completion ----------

  /** Completing one task settles its own shared state and no other. */
  lemma SettleRefs(run: Executor, s: State, id: nat, future: Future, place: Place, s': State)
    requires RefsOk(run, s) && id in s.refOf && (id in s.place ==> s.place[id] != Completed && s.place[id] != Abandoned)
    requires s' == s.(futures := s.futures[s.refOf[id] := future],
                      completions := s.completions[s.refOf[id] := s.completions[s.refOf[id]] + 1],
                      place := s.place[id := place], workers := s'.workers, shutdown := s'.shutdown)
    requires AfterSwap(s) ==> AfterSwap(s')
    requires var t := s.tasks[s.refOf[id]];
             || (place == Completed && future == Delivery(t.resultSize, run(t.executor, t.payload)))
             || (place == Abandoned && future == Failed(SHUTDOWN) && AfterSwap(s'))
    ensures RefsOk(run, s')
  {
    hide Delivery;
    forall i | i in s'.refOf
      ensures StateOk(run, s', i)
    {
      assert StateOk(run, s, i) && StateOk(run, s, id);
      assert i != id ==> s.refOf[i] != s.refOf[id];
    }
  }

  // ---------- Submit ----------

  lemma MakeStateRefs(run: Executor, s: State, p: nat, t: Task)
    requires RefsOk(run, s) && SubmitEnabled(s, MakeState(p, t), p)
    ensures RefsOk(run, ApplySubmit(s, MakeState(p, t), p))
  {
    hide StateOk;
    var s' := ApplySubmit(s, MakeState(p, t), p);
    forall id | id in s'.refOf ensures StateOk(run, s', id) { assert StateOk(run, s, id); StateOkSame(run, s, s', id); }
  }

  lemma MakeStateSubmitters(run: Executor, s: State, p: nat, t: Task)
    requires SubmittersOk(s) && RefsOk(run, s) && SubmitEnabled(s, MakeState(p, t), p)
    ensures SubmittersOk(ApplySubmit(s, MakeState(p, t), p))
  {
    hide StateOk;
    var s' := ApplySubmit(s, MakeState(p, t), p);
    forall q | 0 <= q < |s'.submitters| ensures SubmitterOk(s', q) { assert SubmitterOk(s, q); }
    forall a, b | 0 <= a < |s'.submitters| && 0 <= b < |s'.submitters| && a != b
                  && s'.submitters[a].SMade? && s'.submitters[b].SMade?
      ensures s'.submitters[a].ref != s'.submitters[b].ref
    {
      assert SubmitterOk(s, a) && SubmitterOk(s, b);
    }
  }

  lemma MakeStateInv(run: Executor, s: State, p: nat, t: Task)
    requires Inv(run, s) && SubmitEnabled(s, MakeState(p, t), p)
    ensures Inv(run, ApplySubmit(s, MakeState(p, t), p))
  {
    hide PlacesOk, RefsOk, SubmittersOk, ShutdownOk, WorkersOk;
    var s' := ApplySubmit(s, MakeState(p, t), p);
    PlacesSame(s, s');
    MakeStateRefs(run, s, p, t);
    MakeStateSubmitters(run, s, p, t);
    ShutdownSame(s, s');
    WorkersSame(run, s, s');
  }

  lemma DrawIdRefs(run: Executor, s: State, p: nat)
    requires RefsOk(run, s) && SubmittersOk(s) && PlacesOk(s) && SubmitEnabled(s, DrawId(p), p)
    ensures RefsOk(run, ApplySubmit(s, DrawId(p), p)) && s.nextId !in s.refOf && s.nextId !in s.place
  {
    hide Delivery;
    var s' := ApplySubmit(s, DrawId(p), p);
    assert SubmitterOk(s, p);
    forall id | id in s'.refOf ensures StateOk(run, s', id) { assert id != s.nextId ==> StateOk(run, s, id); }
  }

  lemma DrawIdSubmitters(s: State, p: nat)
    requires SubmittersOk(s) && SubmitEnabled(s, DrawId(p), p) && s.nextId !in s.refOf && s.nextId !in s.place && s.nextId > 0
    ensures SubmittersOk(ApplySubmit(s, DrawId(p), p))
  {
    var s' := ApplySubmit(s, DrawId(p), p);
    assert SubmitterOk(s, p);
    forall q | 0 <= q < |s'.submitters| ensures SubmitterOk(s', q) { assert SubmitterOk(s, q); }
    forall a, b | 0 <= a < |s'.submitters| && 0 <= b < |s'.submitters| && a != b
                  && s'.submitters[a].SNumbered? && s'.submitters[b].SNumbered?
      ensures s'.submitters[a].id != s'.submitters[b].id
    {
      assert SubmitterOk(s, a) && SubmitterOk(s, b);
    }
  }

  lemma NextIdPositive(run: Executor, s: State)
    requires RefsOk(run, s)
    ensures s.nextId > 0
  {
  }

  lemma DrawIdInv(run: Executor, s: State, p: nat)
    requires Inv(run, s) && SubmitEnabled(s, DrawId(p), p)
    ensures Inv(run, ApplySubmit(s, DrawId(p), p))
    ensures s.nextId !in s.refOf && s.nextId !in s.place
  {
    hide PlacesOk, RefsOk, SubmittersOk, ShutdownOk, WorkersOk;
    var s' := ApplySubmit(s, DrawId(p), p);
    DrawIdRefs(run, s, p);
    NextIdPositive(run, s);
    PlacesSame(s, s');
    DrawIdSubmitters(s, p);
    ShutdownSame(s, s');
    WorkersSame(run, s, s');
  }

  lemma RegisterPlaces(s: State, p: nat)
    requires PlacesOk(s) && SubmittersOk(s) && SubmitEnabled(s, Register(p), p)
    ensures PlacesOk(ApplySubmit(s, Register(p), p))
    ensures s.submitters[p].id in s.refOf && s.submitters[p].id !in s.place
  {
    hide Distinct;
    assert SubmitterOk(s, p);
    hide SubmittersOk, SubmitterOk;
    var s', id := ApplySubmit(s, Register(p), p), s.submitters[p].id;
    assert s'.place.Keys == s.place.Keys + {id} && s'.pending.Keys == s.pending.Keys + {id};
    assert s'.workers == s.workers && s'.shutdown == s.shutdown && s'.refOf == s.refOf;
    hide SubmitEnabled, ApplySubmit;
  }

  lemma RegisterSubmitters(s: State, p: nat)
    requires SubmittersOk(s) && SubmitEnabled(s, Register(p), p)
    ensures SubmittersOk(ApplySubmit(s, Register(p), p))
  {
    var s' := ApplySubmit(s, Register(p), p);
    assert SubmitterOk(s, p);
    forall q | 0 <= q < |s'.submitters| ensures SubmitterOk(s', q) { assert SubmitterOk(s, q); }
  }

  lemma RegisterInv(run: Executor, s: State, p: nat)
    requires Inv(run, s) && SubmitEnabled(s, Register(p), p)
    ensures Inv(run, ApplySubmit(s, Register(p), p))
  {
    hide PlacesOk, RefsOk, SubmittersOk, ShutdownOk, WorkersOk;
    var s' := ApplySubmit(s, Register(p), p);
    RegisterPlaces(s, p);
    RefsSame(run, s, s');
    RegisterSubmitters(s, p);
    ShutdownSame(s, s');
    WorkersSame(run, s, s');
  }

  lemma TestStoppingSubmitters(s: State, p: nat)
    requires SubmittersOk(s) && ShutdownOk(s) && SubmitEnabled(s, TestStopping(p), p)
    ensures SubmittersOk(ApplySubmit(s, TestStopping(p), p)) && (!s.stopping ==> !AfterSwap(s))
  {
    assert SubmitterOk(s, p);
    var s' := ApplySubmit(s, TestStopping(p), p);
    forall q | 0 <= q < |s'.submitters| ensures SubmitterOk(s', q) { assert SubmitterOk(s, q); }
  }

  /** Only a task registered while the pool was not stopping is accepted. */
  lemma TestStoppingInv(run: Executor, s: State, p: nat)
    requires Inv(run, s) && SubmitEnabled(s, TestStopping(p), p)
    ensures Inv(run, ApplySubmit(s, TestStopping(p), p))
    ensures ApplySubmit(s, TestStopping(p), p).accepted ==
              if s.stopping then s.accepted else s.accepted + {s.submitters[p].id}
    ensures s.submitters[p].id in s.place
    ensures var s' := ApplySubmit(s, TestStopping(p), p);
            if s.stopping then s'.submitters[p] == SIdle && s'.nextWorker == s.nextWorker
            else
              && s'.submitters[p] == SChosen(s.submitters[p].ref, s.submitters[p].id, s.nextWorker % |s.workers|)
              && s'.nextWorker == s.nextWorker + 1
  {
    hide PlacesOk, RefsOk, ShutdownOk, WorkersOk, Distinct;
    assert SubmitterOk(s, p);
    hide SubmittersOk;
    var s' := ApplySubmit(s, TestStopping(p), p);
    TestStoppingSubmitters(s, p);
    PlacesSame(s, s');
    RefsSame(run, s, s');
    ShutdownSame(s, s');
    WorkersSame(run, s, s');
  }

  lemma RequestIsGood(s: State, p: nat)
    requires p < |s.submitters| && SubmitterOk(s, p) && s.submitters[p].SChosen?
    requires s.submitters[p].ref < |s.tasks| && s.submitters[p].id < WORD64
    requires s.tasks[s.submitters[p].ref].executor < WORD64 && |s.tasks[s.submitters[p].ref].payload| < WORD64
    ensures GoodRequest(s.refOf, s.tasks, RequestFrame(s.submitters[p].id, s.tasks[s.submitters[p].ref]))
  {
    var pc := s.submitters[p];
    var t := s.tasks[pc.ref];
    TaskFrameRoundTrip(RUN, pc.id, t.executor, t.payload);
  }

  lemma LockWriterInv(run: Executor, s: State, p: nat)
    requires Inv(run, s) && SubmitEnabled(s, LockWriter(p), p)
    ensures Inv(run, ApplySubmit(s, LockWriter(p), p))
  {
    hide WorkerOk, StateOk, Delivery, GoodRequest, RequestFrame, Lock, PlacesOk, ShutdownOk;
    assert SubmitterOk(s, p);
    var pc := s.submitters[p];
    RequestIsGood(s, p);
    var f := RequestFrame(pc.id, s.tasks[pc.ref]);
    assert WorkerOk(run, s.refOf, s.tasks, s.workers[pc.w]);
    LockOk(run, s.refOf, s.tasks, s.workers[pc.w], BySubmit(p), f);
    LockKeepsReader(s.workers[pc.w], BySubmit(p), f);
    var mid := SetWorker(s, pc.w, Lock(s.workers[pc.w], BySubmit(p), f));
    WorkerStepInv(run, s, pc.w, Lock(s.workers[pc.w], BySubmit(p), f));
    SubmitterStepInv(run, mid, p, SWriting(pc.ref, pc.id, pc.w));
  }

  lemma LockKeepsReader(k: Worker, who: Who, f: Frame)
    ensures Lock(k, who, f).reader == k.reader
  {
  }

  lemma SubmitWritesInv(run: Executor, s: State, p: nat, n: nat)
    requires Inv(run, s) && SubmitEnabled(s, SubmitWrites(p, n), p)
    ensures Inv(run, ApplySubmit(s, SubmitWrites(p, n), p))
  {
    hide WorkerOk, PlacesOk, ShutdownOk, RefsOk, SubmittersOk;
    var w := s.submitters[p].w;
    WritePieceOk(run, s.refOf, s.tasks, s.workers[w], n);
    WorkerStepInv(run, s, w, WritePiece(s.workers[w], n));
  }

  /** A Submit that gives up, or returns its future. */
  lemma SubmitEndsInv(run: Executor, s: State, a: Action, p: nat)
    requires Inv(run, s) && SubmitEnabled(s, a, p) && (a.SubmitFails? || a.SubmitReturns?) && a.p == p
    ensures Inv(run, ApplySubmit(s, a, p))
    ensures ApplySubmit(s, a, p).submitters[p] == SIdle
    ensures ApplySubmit(s, a, p).returned == if a.SubmitReturns? then s.returned + {s.submitters[p].ref} else s.returned
  {
    hide WorkerOk, PlacesOk, ShutdownOk, StateOk, Delivery;
    var pc := s.submitters[p];
    var k := if a.SubmitFails? then Break(s.workers[pc.w]) else s.workers[pc.w].(writer := Nobody);
    assert WorkerOk(run, s.refOf, s.tasks, s.workers[pc.w]);
    ReleaseOkOrKept(run, s.refOf, s.tasks, s.workers[pc.w], k);
    assert SubmitterOk(s, p);
    WorkerStepInv(run, s, pc.w, k);
    var mid := SetWorker(s, pc.w, k);
    SubmitterStepInv(run, mid, p, SIdle);
    if a.SubmitReturns? {
      ReturnedInv(run, Go(mid, p, SIdle), pc.ref);
    }
  }

  /** Releasing the mutex when all is written, also on a socket given up meanwhile. */
  lemma ReleaseOkOrKept(run: Executor, refOf: map<nat, nat>, tasks: seq<Task>, k: Worker, k': Worker)
    requires WorkerOk(run, refOf, tasks, k)
    requires k' == Break(k) || (Todo(k.writer) == [] && k' == k.(writer := Nobody))
    ensures WorkerOk(run, refOf, tasks, k')
  {
    hide RequestsOk, AnswersOk, HoldingOk;
    if k'.broken || !k.broken {
      ReleaseOk(run, refOf, tasks, k, k');
    }
  }

  lemma ReturnedInv(run: Executor, s: State, ref: nat)
    requires Inv(run, s) && ref < |s.idOf| && s.idOf[ref] != 0 && s.idOf[ref] in s.accepted
    ensures Inv(run, s.(returned := s.returned + {ref}))
  {
    hide PlacesOk, RefsOk, SubmittersOk, ShutdownOk, WorkersOk;
    var s' := s.(returned := s.returned + {ref});
    PlacesSame(s, s');
    RefsSame(run, s, s');
    SubmittersSame(s, s');
    ShutdownSame(s, s');
    WorkersSame(run, s, s');
  }

  // ---------- Workers and readers ----------

  /** The handler of `id`, and no other, goes from pending_ to the reader of worker w, if it is there. */
  ghost predicate MovesOneHandler(s: State, w: nat, id: nat)
    requires WorkerEnabled(s, ReaderLooksUp(w), w)
  {
    var s' := LookUp(s, w);
    && id !in s'.pending && (forall x :: x in s.pending && x != id ==> x in s'.pending && s'.pending[x] == s.pending[x])
    && s'.pending.Keys <= s.pending.Keys
    && |s'.workers| == |s.workers| && (forall v :: 0 <= v < |s.workers| && v != w ==> s'.workers[v] == s.workers[v])
    && (if id in s.pending then
          && s'.workers[w].reader.RHolding? && s'.workers[w].reader.id == id
          && id in s.refOf && s'.workers[w].reader.ref == s.refOf[id]
        else s'.workers[w].reader.RReading?)
  }

  lemma LookUpMovesOne(s: State, w: nat)
    requires PlacesOk(s) && WorkerEnabled(s, ReaderLooksUp(w), w)
    ensures MovesOneHandler(s, w, ResultIdOf(Frame(s.workers[w].resp.got[..24], s.workers[w].resp.got[24..])))
  {
    hide ResultIdOf, Needed, Take;
  }

  /** The reader takes a handler out of pending_ under its mutex. */
  lemma LookUpInv(run: Executor, s: State, w: nat)
    requires Inv(run, s) && WorkerEnabled(s, ReaderLooksUp(w), w) && GoodExecutor(run)
    ensures Inv(run, LookUp(s, w))
  {
    hide WorkerOk, StateOk, Delivery, ResultIdOf, Needed, Take;
    var k := s.workers[w];
    var f := Frame(k.resp.got[..24], k.resp.got[24..]);
    var id := ResultIdOf(f);
    assert WorkerOk(run, s.refOf, s.tasks, k);
    if id !in s.pending {
      LookUpOk(run, s.refOf, s.tasks, k, k.reader);
      WorkerStepInv(run, s, w, k.(resp := Take(k.resp)));
    } else {
      LookUpOk(run, s.refOf, s.tasks, k, RHolding(id, s.pending[id], f));
      HandlerTaken(run, s, w, id, k.(resp := Take(k.resp), reader := RHolding(id, s.pending[id], f)));
    }
  }

  lemma HandlerTakenPlaces(s: State, w: nat, id: nat, k: Worker)
    requires PlacesOk(s) && w < |s.workers| && s.workers[w].reader.RReading? && id in s.pending
    requires k.reader.RHolding? && k.reader.id == id
    ensures PlacesOk(SetWorker(s, w, k).(pending := s.pending - {id}, place := s.place[id := WithReader(w)]))
    ensures id in s.place && s.place[id] == InPending && id in s.refOf
  {
  }

  lemma LiveReaderPrecedesSwap(s: State, w: nat)
    requires ShutdownOk(s) && w < |s.workers| && !s.workers[w].reader.RExited?
    ensures !AfterSwap(s)
  {
  }

  lemma HandlerTaken(run: Executor, s: State, w: nat, id: nat, k: Worker)
    requires Inv(run, s) && w < |s.workers| && s.workers[w].reader.RReading? && id in s.pending
    requires WorkerOk(run, s.refOf, s.tasks, k) && k.reader.RHolding? && k.reader.id == id
    ensures Inv(run, SetWorker(s, w, k).(pending := s.pending - {id}, place := s.place[id := WithReader(w)]))
  {
    hide PlacesOk, RefsOk, SubmittersOk, ShutdownOk, WorkersOk;
    hide WorkerOk;
    var s' := SetWorker(s, w, k).(pending := s.pending - {id}, place := s.place[id := WithReader(w)]);
    HandlerTakenPlaces(s, w, id, k);
    LiveReaderPrecedesSwap(s, w);
    RefsSame(run, s, s');
    assert s'.place.Keys == s.place.Keys;
    SubmittersSame(s, s');
    ShutdownSame(s, s');
    WorkersReplaced(run, s, w, s');
  }

  /** The reader completes the shared state with what the executor left for that very task. */
  lemma CompletesInv(run: Executor, s: State, w: nat)
    requires Inv(run, s) && WorkerEnabled(s, ReaderCompletes(w), w) && GoodExecutor(run)
    ensures Inv(run, ApplyWorker(run, s, ReaderCompletes(w), w))
  {
    hide LinkOk, AnswersOk, RequestsOk, Delivery, Complete, Answer;
    var k := s.workers[w];
    var id, ref := k.reader.id, k.reader.ref;
    var t := s.tasks[ref];
    assert WorkerOk(run, s.refOf, s.tasks, k);
    ReaderStops(run, s.refOf, s.tasks, k);
    AnswerDelivers(t.resultSize, id, run(t.executor, t.payload));
    assert s.place[id] == WithReader(w);
    CompletedByReader(run, s, w, Complete(t.resultSize, k.reader.f));
  }

  lemma CompletedByReaderPlaces(s: State, w: nat, future: Future)
    requires PlacesOk(s) && w < |s.workers| && s.workers[w].reader.RHolding?
    requires s.workers[w].reader.ref < |s.futures| == |s.completions|
    ensures PlacesOk(Settle(SetWorker(s, w, s.workers[w].(reader := RReading)),
                            s.workers[w].reader.id, s.workers[w].reader.ref, future, Completed))
    ensures s.workers[w].reader.id in s.place && s.place[s.workers[w].reader.id].WithReader?
  {
  }

  lemma CompletedByReader(run: Executor, s: State, w: nat, future: Future)
    requires Inv(run, s) && w < |s.workers| && s.workers[w].reader.RHolding?
    requires WorkerOk(run, s.refOf, s.tasks, s.workers[w].(reader := RReading))
    requires var id, ref := s.workers[w].reader.id, s.workers[w].reader.ref;
             && id in s.refOf && s.refOf[id] == ref < |s.tasks| == |s.futures| == |s.completions|
             && future == Delivery(s.tasks[ref].resultSize, run(s.tasks[ref].executor, s.tasks[ref].payload))
    ensures Inv(run, Settle(SetWorker(s, w, s.workers[w].(reader := RReading)),
                            s.workers[w].reader.id, s.workers[w].reader.ref, future, Completed))
  {
    hide PlacesOk, RefsOk, SubmittersOk, ShutdownOk, WorkersOk;
    hide WorkerOk, Delivery;
    var id, ref := s.workers[w].reader.id, s.workers[w].reader.ref;
    var s' := Settle(SetWorker(s, w, s.workers[w].(reader := RReading)), id, ref, future, Completed);
    CompletedByReaderPlaces(s, w, future);
    SettleRefs(run, s, id, future, Completed, s');
    assert s'.place.Keys == s.place.Keys;
    SubmittersSame(s, s');
    ShutdownSame(s, s');
    WorkersReplaced(run, s, w, s');
  }

  // ---------- Shutdown ----------

  lemma ShutdownMoves(run: Executor, s: State, d: Shutdown)
    requires Inv(run, s) && ShutdownOk(s.(shutdown := d)) && SwappedHandlers(d) == SwappedHandlers(s.shutdown)
    requires AfterSwap(s) ==> AfterSwap(s.(shutdown := d))
    ensures Inv(run, s.(shutdown := d))
  {
    hide PlacesOk, RefsOk, SubmittersOk, ShutdownOk, WorkersOk;
    var s' := s.(shutdown := d);
    PlacesSame(s, s');
    RefsSame(run, s, s');
    SubmittersSame(s, s');
    WorkersSame(run, s, s');
  }

  lemma BeginsInv(run: Executor, s: State)
    requires Inv(run, s) && ShutdownEnabled(s, ShutdownBegins)
    ensures Inv(run, ApplyShutdown(s, ShutdownBegins))
  {
    hide PlacesOk, RefsOk, SubmittersOk, WorkersOk;
    var s' := ApplyShutdown(s, ShutdownBegins);
    PlacesSame(s, s');
    RefsSame(run, s, s');
    SubmittersSame(s, s');
    WorkersSame(run, s, s');
  }

  lemma StopIsGood(refOf: map<nat, nat>, tasks: seq<Task>)
    ensures GoodRequest(refOf, tasks, StopFrame())
  {
    TaskFrameRoundTrip(STOP, 0, 0, []);
  }

  lemma StopStepsInv(run: Executor, s: State, a: Action)
    requires Inv(run, s) && ShutdownEnabled(s, a) && (a.StopLocks? || a.StopWrites? || a.StopDone? || a.StopFails?)
    ensures Inv(run, ApplyShutdown(s, a))
  {
    hide WorkerOk, PlacesOk, RefsOk, SubmittersOk, Lock, StopFrame;
    var i := s.shutdown.i;
    var k := s.workers[i];
    assert WorkerOk(run, s.refOf, s.tasks, k);
    if a.StopLocks? {
      StopIsGood(s.refOf, s.tasks);
      LockOk(run, s.refOf, s.tasks, k, ByShutdown, StopFrame());
      LockKeepsReader(k, ByShutdown, StopFrame());
      WorkerStepInv(run, s, i, Lock(k, ByShutdown, StopFrame()));
      ShutdownMoves(run, SetWorker(s, i, Lock(k, ByShutdown, StopFrame())), SendingStop(i));
    } else if a.StopWrites? {
      WritePieceOk(run, s.refOf, s.tasks, k, a.n);
      WorkerStepInv(run, s, i, WritePiece(k, a.n));
    } else {
      var k' := if a.StopFails? then Break(k) else k.(writer := Nobody);
      ReleaseOkOrKept(run, s.refOf, s.tasks, k, k');
      WorkerStepInv(run, s, i, k');
      ShutdownMoves(run, SetWorker(s, i, k'), Stopping(i + 1));
    }
  }

  lemma ClosesWorkers(run: Executor, s: State)
    requires WorkersOk(run, s) && ShutdownEnabled(s, Closes)
    ensures WorkersOk(run, ApplyShutdown(s, Closes))
  {
    hide RequestsOk, AnswersOk, HoldingOk;
    var s' := ApplyShutdown(s, Closes);
    forall w | 0 <= w < |s'.workers| ensures WorkerOk(run, s'.refOf, s'.tasks, s'.workers[w]) {
      assert WorkerOk(run, s.refOf, s.tasks, s.workers[w]);
      ReleaseOk(run, s.refOf, s.tasks, s.workers[w], s'.workers[w]);
    }
  }

  lemma ClosesInv(run: Executor, s: State)
    requires Inv(run, s) && ShutdownEnabled(s, Closes)
    ensures Inv(run, ApplyShutdown(s, Closes))
  {
    hide PlacesOk, RefsOk, SubmittersOk, WorkersOk;
    var s' := ApplyShutdown(s, Closes);
    PlacesSame(s, s');
    RefsSame(run, s, s');
    SubmittersSame(s, s');
    ClosesWorkers(run, s);
  }

  lemma SwapsPlaces(s: State)
    requires PlacesOk(s) && ShutdownEnabled(s, Swaps)
    ensures PlacesOk(ApplyShutdown(s, Swaps))
  {
  }

  lemma SwapsShutdown(s: State)
    requires PlacesOk(s) && ShutdownOk(s) && SubmittersOk(s) && ShutdownEnabled(s, Swaps)
    ensures ShutdownOk(ApplyShutdown(s, Swaps))
  {
    hide SubmitterOk, Distinct;
    var s' := ApplyShutdown(s, Swaps);
    forall id | id in s'.accepted
      ensures id in s'.place && (s'.place[id] == SwappedOut || s'.place[id] == Completed || s'.place[id] == Abandoned)
    {
      assert id in s.place;
      if s.place[id].WithReader? {
        assert false;
      }
    }
  }

  /** With every reader gone, each accepted handler is completed or among those swapped out. */
  lemma SwapsInv(run: Executor, s: State)
    requires Inv(run, s) && ShutdownEnabled(s, Swaps)
    ensures Inv(run, ApplyShutdown(s, Swaps))
  {
    hide PlacesOk, RefsOk, SubmittersOk, ShutdownOk, WorkersOk;
    var s' := ApplyShutdown(s, Swaps);
    SwapsPlaces(s);
    SwapsShutdown(s);
    RefsSame(run, s, s');
    assert s'.place.Keys == s.place.Keys;
    SubmittersSame(s, s');
    WorkersSame(run, s, s');
  }

  lemma FailsOnePlaces(s: State, id: nat)
    requires PlacesOk(s) && ShutdownEnabled(s, FailsOne(id))
    ensures PlacesOk(ApplyShutdown(s, FailsOne(id)))
    ensures id in s.refOf && id in s.place && s.place[id] == SwappedOut && s.shutdown.todo[id] == s.refOf[id]
  {
    hide PlacesOk;
    AbandonPlaces(s, ApplyShutdown(s, FailsOne(id)), id);
  }

  lemma AbandonPlaces(s: State, s': State, id: nat)
    requires PlacesOk(s) && s.shutdown.Failing? && id in s.shutdown.todo
    requires s'.place == s.place[id := Abandoned] && s'.shutdown == Failing(s.shutdown.todo - {id})
    requires s'.workers == s.workers && s'.pending == s.pending && s'.refOf == s.refOf
    ensures PlacesOk(s')
    ensures id in s.refOf && id in s.place && s.place[id] == SwappedOut && s.shutdown.todo[id] == s.refOf[id]
  {
    assert id in SwappedHandlers(s.shutdown);
  }

  lemma FailsOneShutdown(s: State, id: nat)
    requires ShutdownOk(s) && ShutdownEnabled(s, FailsOne(id))
    ensures ShutdownOk(ApplyShutdown(s, FailsOne(id)))
  {
  }

  lemma FailsOneInv(run: Executor, s: State, id: nat)
    requires Inv(run, s) && ShutdownEnabled(s, FailsOne(id))
    ensures Inv(run, ApplyShutdown(s, FailsOne(id)))
  {
    hide PlacesOk, RefsOk, SubmittersOk, ShutdownOk, WorkersOk;
    var s' := ApplyShutdown(s, FailsOne(id));
    FailsOnePlaces(s, id);
    FailsOneShutdown(s, id);
    SettleRefs(run, s, id, Failed(SHUTDOWN), Abandoned, s');
    assert s'.place.Keys == s.place.Keys;
    SubmittersSame(s, s');
    WorkersSame(run, s, s');
  }
}
