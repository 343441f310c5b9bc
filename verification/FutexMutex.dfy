/**
 The three-state futex mutex, run by any number of threads.

 The state machine has one program counter per thread and one step per atomic action of the
 source. Every thread repeats: Lock, load a shared counter, store the value plus one, Unlock.
 FutexWait is one step ("if the word is 2, sleep"), it may return for no reason at any time, and
 waking a sleeper is a step of its own, after the exchange that found the word to be 2.
 */
module FutexMutex {
  import opened Sums

  const FREE: nat := 0
  const LOCKED: nat := 1
  const CONTENDED: nat := 2

  datatype Pc =
    | Start         // before the compare-exchange of Lock
    | Swap          // about to exchange the word for CONTENDED
    | Wait          // about to call FutexWait
    | Asleep        // inside FutexWait
    | Critical      // owns the lock, counter not read yet
    | Loaded(v: int)
    | Stored        // owns the lock, about to exchange the word for FREE
    | Wake          // has swapped out CONTENDED, still owes FutexWakeOne

  /** `left` counts the increments the thread has still to store. */
  datatype Thread = Thread(pc: Pc, left: nat)

  /** `swaps` and `wakes` count executed exchanges for CONTENDED and calls of FutexWakeOne. */
  datatype State = State(word: nat, counter: int, threads: seq<Thread>, swaps: nat, wakes: nat)

  datatype Action =
    | Step(i: nat)                // the next atomic action of Lock, of the increment or of Unlock
    | Return(i: nat)              // FutexWait returns without a wake
    | WakeOne(i: nat, j: nat)     // FutexWakeOne of i wakes j
    | WakeNone(i: nat)            // FutexWakeOne of i finds nobody asleep

  /** One atomic action on the word by a thread inside Lock: its next program counter and the new word. */
  function LockStep(pc: Pc, word: nat): (Pc, nat)
    requires pc.Start? || pc.Swap? || pc.Wait?
  {
    match pc
    case Start =>
      if word == FREE then (Critical, LOCKED)
      else if word != CONTENDED then (Swap, word)
      else (Wait, word)
    case Swap => (if word != FREE then Wait else Critical, CONTENDED)
    case Wait => (if word == CONTENDED then Asleep else Swap, word)
  }

  /** The exchange in Unlock. */
  function UnlockStep(word: nat): (Pc, nat) {
    (if word == CONTENDED then Wake else Start, FREE)
  }

  predicate Enabled(s: State, a: Action) {
    && a.i < |s.threads|
    && var t := s.threads[a.i];
       match a
       case Step(i) => t.pc != Asleep && t.pc != Wake && (t.pc == Start ==> t.left > 0)
       case Return(i) => t.pc == Asleep || t.pc == Wait
       case WakeOne(i, j) => t.pc == Wake && j < |s.threads| && s.threads[j].pc == Asleep
       case WakeNone(i) => t.pc == Wake && forall j :: 0 <= j < |s.threads| ==> s.threads[j].pc != Asleep
  }

  function Go(s: State, i: nat, pc: Pc): State
    requires i < |s.threads|
  {
    s.(threads := s.threads[i := s.threads[i].(pc := pc)])
  }

  function Apply(s: State, a: Action): State
    requires Enabled(s, a)
  {
    var t := s.threads[a.i];
    match a
    case Step(i) =>
      if t.pc.Critical? then Go(s, i, Loaded(s.counter))
      else if t.pc.Loaded? then
        s.(counter := t.pc.v + 1, threads := s.threads[i := Thread(Stored, if t.left > 0 then t.left - 1 else 0)])
      else if t.pc.Stored? then
        var (pc, word) := UnlockStep(s.word);
        Go(s, i, pc).(word := word)
      else
        var (pc, word) := LockStep(t.pc, s.word);
        Go(s, i, pc).(word := word, swaps := if t.pc == Swap then s.swaps + 1 else s.swaps)
    case Return(i) => Go(s, i, Swap)
    case WakeOne(i, j) => Go(Go(s, i, Start), j, Swap).(wakes := s.wakes + 1)
    case WakeNone(i) => Go(s, i, Start).(wakes := s.wakes + 1)
  }

  // ---------- Runs ----------

  function Init(n: nat, k: nat): State {
    State(FREE, 0, seq(n, _ => Thread(Start, k)), 0, 0)
  }

  predicate ValidRun(s: State, acts: seq<Action>)
    decreases |acts|
  {
    acts == [] || (Enabled(s, acts[0]) && ValidRun(Apply(s, acts[0]), acts[1..]))
  }

  function Final(s: State, acts: seq<Action>): State
    requires ValidRun(s, acts)
    decreases |acts|
  {
    if acts == [] then s else Final(Apply(s, acts[0]), acts[1..])
  }

  // ---------- The invariant ----------

  function Owner(t: Thread): nat { if t.pc.Critical? || t.pc.Loaded? || t.pc.Stored? then 1 else 0 }
  function Waker(t: Thread): nat { if t.pc.Wake? then 1 else 0 }
  function Left(t: Thread): nat { t.left }

  ghost predicate Someone(s: State, pc: Pc) {
    exists i :: 0 <= i < |s.threads| && s.threads[i].pc == pc
  }

  /** The word is nonzero exactly when one thread owns the lock, and never do two. */
  ghost predicate Exclusive(s: State) {
    s.word <= CONTENDED && Sum(s.threads, Owner) == if s.word == FREE then 0 else 1
  }

  /** A sleeper is always accounted for. */
  ghost predicate NoLostWakeup(s: State) {
    Someone(s, Asleep) ==> s.word == CONTENDED || Someone(s, Wake) || Someone(s, Swap)
  }

  /** Each thread's share of the counter is stored or still to come, and no loaded value is stale. */
  ghost predicate Accounted(s: State, total: nat) {
    && s.counter + Sum(s.threads, Left) == total
    && (forall i :: 0 <= i < |s.threads| && s.threads[i].pc.Loaded? ==> s.threads[i].pc.v == s.counter)
    && (forall i :: 0 <= i < |s.threads| && s.threads[i].left == 0 ==>
          s.threads[i].pc in {Start, Stored, Wake})
  }

  /** Every wake call and every wake still owed or still to be decided is paid for by an exchange. */
  ghost predicate WakesPaid(s: State) {
    s.wakes + Sum(s.threads, Waker) + (if s.word == CONTENDED then 1 else 0) <= s.swaps
  }

  ghost predicate Inv(s: State, total: nat) {
    Exclusive(s) && NoLostWakeup(s) && Accounted(s, total) && WakesPaid(s)
  }

  lemma InitInv(n: nat, k: nat)
    ensures Inv(Init(n, k), n * k)
  {
    SumReplicate(n, Thread(Start, k), Owner);
    SumReplicate(n, Thread(Start, k), Waker);
    SumReplicate(n, Thread(Start, k), Left);
  }

  lemma OwnersCoincide(s: State, i: nat, j: nat)
    requires Exclusive(s) && i < |s.threads| && j < |s.threads|
    requires Owner(s.threads[i]) == 1 && Owner(s.threads[j]) == 1
    ensures i == j
  {
    if i < j { SumAtLeastTwo(s.threads, i, j, Owner); }
    if j < i { SumAtLeastTwo(s.threads, j, i, Owner); }
  }

  /** How the three sums move when thread i changes. */
  lemma SumsMove(s: State, i: nat, t: Thread)
    requires i < |s.threads|
    ensures Sum(s.threads[i := t], Owner) + Owner(s.threads[i]) == Sum(s.threads, Owner) + Owner(t)
    ensures Sum(s.threads[i := t], Waker) + Waker(s.threads[i]) == Sum(s.threads, Waker) + Waker(t)
    ensures Sum(s.threads[i := t], Left) + Left(s.threads[i]) == Sum(s.threads, Left) + Left(t)
  {
    SumUpdate(s.threads, i, t, Owner);
    SumUpdate(s.threads, i, t, Waker);
    SumUpdate(s.threads, i, t, Left);
  }

  lemma StepSums(s: State, a: Action, total: nat)
    requires Inv(s, total) && Enabled(s, a)
    ensures Exclusive(Apply(s, a)) && WakesPaid(Apply(s, a))
    ensures Apply(s, a).counter + Sum(Apply(s, a).threads, Left) == total
  {
    hide Sum, NoLostWakeup;
    var s' := Apply(s, a);
    SumAtLeast(s.threads, a.i, Owner);
    SumAtLeast(s.threads, a.i, Waker);
    if a.WakeOne? {
      var mid := Go(s, a.i, Start);
      SumsMove(s, a.i, mid.threads[a.i]);
      SumsMove(mid, a.j, s'.threads[a.j]);
    } else {
      SumsMove(s, a.i, s'.threads[a.i]);
    }
  }

  lemma StepThreads(s: State, a: Action, total: nat)
    requires Inv(s, total) && Enabled(s, a)
    ensures Accounted(Apply(s, a), total)
  {
    hide Sum, NoLostWakeup, WakesPaid;
    var s' := Apply(s, a);
    StepSums(s, a, total);
    forall j | 0 <= j < |s'.threads| && s'.threads[j].pc.Loaded?
      ensures s'.threads[j].pc.v == s'.counter
    {
      if j != a.i && Owner(s.threads[a.i]) == 1 {
        OwnersCoincide(s, a.i, j);
      }
    }
  }

  lemma StepSleepers(s: State, a: Action, total: nat)
    requires Inv(s, total) && Enabled(s, a)
    ensures NoLostWakeup(Apply(s, a))
  {
    hide Exclusive, Accounted, WakesPaid;
    var s' := Apply(s, a);
    if j :| 0 <= j < |s'.threads| && s'.threads[j].pc == Asleep {
      if s.threads[j].pc == Asleep {
        if s.word == CONTENDED {
          if s'.word != CONTENDED {
            assert s'.threads[a.i].pc == Wake;
          }
        } else if w :| 0 <= w < |s.threads| && s.threads[w].pc == Wake {
          assert s'.threads[w].pc == Wake || s'.threads[a.i].pc == Swap || (a.WakeOne? && s'.threads[a.j].pc == Swap);
        } else {
          var w :| 0 <= w < |s.threads| && s.threads[w].pc == Swap;
          assert s'.threads[w].pc == Swap || s'.word == CONTENDED;
        }
      }
    }
  }

  lemma StepInv(s: State, a: Action, total: nat)
    requires Inv(s, total) && Enabled(s, a)
    ensures Inv(Apply(s, a), total)
  {
    hide Exclusive, Accounted, WakesPaid, NoLostWakeup;
    StepSums(s, a, total);
    StepThreads(s, a, total);
    StepSleepers(s, a, total);
  }

  lemma {:induction false} RunInv(s: State, acts: seq<Action>, total: nat)
    requires Inv(s, total) && ValidRun(s, acts)
    ensures Inv(Final(s, acts), total)
    decreases |acts|
  {
    if acts != [] {
      StepInv(s, acts[0], total);
      RunInv(Apply(s, acts[0]), acts[1..], total);
    }
  }

  // ---------- What holds in every run ----------

  /** Mutual exclusion: the word is nonzero if and only if some thread owns the lock, and owners are unique. */
  lemma MutualExclusion(n: nat, k: nat, acts: seq<Action>)
    requires ValidRun(Init(n, k), acts)
    ensures var s := Final(Init(n, k), acts);
            && (s.word != FREE <==> exists i :: 0 <= i < |s.threads| && Owner(s.threads[i]) > 0)
            && forall i, j | 0 <= i < |s.threads| && 0 <= j < |s.threads|
                             && Owner(s.threads[i]) > 0 && Owner(s.threads[j]) > 0 :: i == j
  {
    InitInv(n, k);
    RunInv(Init(n, k), acts, n * k);
    var s := Final(Init(n, k), acts);
    SumPositive(s.threads, Owner);
    forall i, j | 0 <= i < |s.threads| && 0 <= j < |s.threads|
                  && Owner(s.threads[i]) > 0 && Owner(s.threads[j]) > 0
      ensures i == j
    {
      OwnersCoincide(s, i, j);
    }
  }

  /**
   No lost wakeup: with a thread asleep, either the word is 2 and an owner exists, or an unlocker
   still owes its wake, or an awake thread is about to exchange the word for 2.
   */
  lemma SleepersAreCovered(n: nat, k: nat, acts: seq<Action>)
    requires ValidRun(Init(n, k), acts)
    ensures var s := Final(Init(n, k), acts);
            Someone(s, Asleep) ==>
              || (s.word == CONTENDED && exists i :: 0 <= i < |s.threads| && Owner(s.threads[i]) > 0)
              || Someone(s, Wake)
              || Someone(s, Swap)
  {
    InitInv(n, k);
    RunInv(Init(n, k), acts, n * k);
    SumPositive(Final(Init(n, k), acts).threads, Owner);
  }

  /** FutexWakeOne is called at most as often as the word is exchanged for 2. */
  lemma WakesAreBounded(n: nat, k: nat, acts: seq<Action>)
    requires ValidRun(Init(n, k), acts)
    ensures Final(Init(n, k), acts).wakes <= Final(Init(n, k), acts).swaps
  {
    InitInv(n, k);
    RunInv(Init(n, k), acts, n * k);
  }

  ghost predicate Complete(s: State) {
    forall i :: 0 <= i < |s.threads| ==> s.threads[i] == Thread(Start, 0)
  }

  /** No increment is lost: after every complete run the counter is n * k and the word is free. */
  lemma CounterIsExact(n: nat, k: nat, acts: seq<Action>)
    requires ValidRun(Init(n, k), acts) && Complete(Final(Init(n, k), acts))
    ensures Final(Init(n, k), acts).counter == n * k && Final(Init(n, k), acts).word == FREE
  {
    InitInv(n, k);
    RunInv(Init(n, k), acts, n * k);
    SumPositive(Final(Init(n, k), acts).threads, Owner);
    SumPositive(Final(Init(n, k), acts).threads, Left);
  }

  // ---------- The system is never stuck ----------

  /** How far a thread is from having finished, along the run chosen below. */
  function Distance(t: Thread): nat {
    8 * t.left +
    match t.pc
    case Asleep => 5 case Wait => 4 case Swap => 3 case Start => 3
    case Critical => 2 case Loaded(_) => 1 case Stored => 5 case Wake => 4
  }

  /** A step of thread i that its surroundings let it take usefully. */
  lemma StepAdvances(s: State, i: nat, total: nat)
    requires Inv(s, total) && Enabled(s, Step(i))
    requires Owner(s.threads[i]) == 1 || s.word == FREE
    ensures Sum(Apply(s, Step(i)).threads, Distance) < Sum(s.threads, Distance)
  {
    SumUpdate(s.threads, i, Apply(s, Step(i)).threads[i], Distance);
  }

  lemma WakeAdvances(s: State, i: nat, j: nat)
    requires Enabled(s, WakeOne(i, j))
    ensures Sum(Apply(s, WakeOne(i, j)).threads, Distance) < Sum(s.threads, Distance)
  {
    var mid := Go(s, i, Start);
    SumUpdate(s.threads, i, mid.threads[i], Distance);
    SumUpdate(mid.threads, j, Apply(s, WakeOne(i, j)).threads[j], Distance);
  }

  /** In every unfinished state some thread has a step, other than a spurious return, that brings the end closer. */
  lemma Advance(s: State, total: nat) returns (a: Action)
    requires Inv(s, total) && !Complete(s)
    ensures Enabled(s, a) && !a.Return?
    ensures Sum(Apply(s, a).threads, Distance) < Sum(s.threads, Distance)
  {
    SumPositive(s.threads, Owner);
    if i :| 0 <= i < |s.threads| && Owner(s.threads[i]) > 0 {
      a := Step(i);
      StepAdvances(s, i, total);
    } else if i :| 0 <= i < |s.threads| && s.threads[i].pc == Wake {
      if j :| 0 <= j < |s.threads| && s.threads[j].pc == Asleep {
        a := WakeOne(i, j);
        WakeAdvances(s, i, j);
      } else {
        a := WakeNone(i);
        SumUpdate(s.threads, i, Apply(s, a).threads[i], Distance);
      }
    } else {
      var i := Willing(s);
      a := Step(i);
      StepAdvances(s, i, total);
    }
  }

  /** With the word free and no wake owed, not every unfinished thread can be asleep. */
  lemma Willing(s: State) returns (i: nat)
    requires NoLostWakeup(s) && s.word == FREE && !Someone(s, Wake) && !Complete(s)
    requires forall j :: 0 <= j < |s.threads| ==> Owner(s.threads[j]) == 0
    ensures Enabled(s, Step(i))
  {
    if j :| 0 <= j < |s.threads| && s.threads[j].pc == Swap {
      i := j;
    } else {
      assert !Someone(s, Asleep);
      i :| 0 <= i < |s.threads| && s.threads[i] != Thread(Start, 0);
    }
  }

  /** From every state satisfying the invariant, all threads can run to completion without a spurious wakeup. */
  lemma {:induction false} CanFinish(s: State, total: nat) returns (acts: seq<Action>)
    requires Inv(s, total)
    ensures ValidRun(s, acts) && Complete(Final(s, acts))
    ensures forall k :: 0 <= k < |acts| ==> !acts[k].Return?
    decreases Sum(s.threads, Distance)
  {
    if Complete(s) {
      acts := [];
    } else {
      var a := Advance(s, total);
      StepInv(s, a, total);
      var rest := CanFinish(Apply(s, a), total);
      acts := [a] + rest;
    }
  }

  /** Never stuck: every run extends, without relying on a spurious wakeup, to a complete one. */
  lemma EveryRunCanFinish(n: nat, k: nat, acts: seq<Action>) returns (more: seq<Action>)
    requires ValidRun(Init(n, k), acts)
    ensures ValidRun(Final(Init(n, k), acts), more)
    ensures forall j :: 0 <= j < |more| ==> !more[j].Return?
    ensures Complete(Final(Final(Init(n, k), acts), more))
  {
    InitInv(n, k);
    RunInv(Init(n, k), acts, n * k);
    more := CanFinish(Final(Init(n, k), acts), n * k);
  }

  // ---------- The class of the source ----------

  /** A thread inside Lock when its k-th atomic action finds env[k] in the word; a wake counts as an action. */
  function LockRun(env: seq<nat>): (r: (Pc, nat))
    requires |env| > 0
    ensures r.0.Swap? || r.0.Wait? || r.0.Asleep? || r.0.Critical?
  {
    var last := |env| - 1;
    if last == 0 then LockStep(Start, env[0]) else
      var (pc, word) := LockRun(env[..last]);
      if pc == Critical then (pc, word)
      else if pc == Asleep then (Swap, env[last])
      else LockStep(pc, env[last])
  }

  /** The actions of Lock one by one, on a word of any value. */
  lemma LockActions(word: nat)
    ensures LockStep(Start, word) == if word == 0 then (Critical, 1) else if word == 2 then (Wait, 2) else (Swap, word)
    ensures LockStep(Swap, word) == (if word == 0 then Critical else Wait, 2)
    ensures LockStep(Wait, word) == if word == 2 then (Asleep, 2) else (Swap, word)
    ensures UnlockStep(word) == (if word == 2 then Wake else Start, 0)
  {
  }

  lemma LockRunStep(env: seq<nat>, used: nat)
    requires 0 < used < |env|
    ensures var (pc, word) := LockRun(env[..used]);
            LockRun(env[..used + 1]) == if pc == Critical then (pc, word)
                                        else if pc == Asleep then (Swap, env[used])
                                        else LockStep(pc, env[used])
  {
    assert env[..used + 1][..used] == env[..used];
  }

  class Mutex {
    var state: nat

    constructor ()
      ensures state == FREE
    {
      state := FREE;
    }

    method CompareExchangeStrong(expected: nat, desired: nat) returns (ok: bool, seen: nat)
      modifies this
      ensures seen == old(state) && ok == (old(state) == expected)
      ensures state == if ok then desired else old(state)
    {
      seen := state;
      ok := state == expected;
      if ok { state := desired; }
    }

    method Exchange(desired: nat) returns (previous: nat)
      modifies this
      ensures previous == old(state) && state == desired
    {
      previous := state;
      state := desired;
    }

    /**
     Lock, with the other threads as an oracle: `env[k]` is the word as this thread's k-th atomic
     action finds it (a wake counts as one). It stops early when the oracle is used up; `pc` tells
     where, and both `pc` and the word are those of the state machine.
     */
    method Lock(env: seq<nat>) returns (pc: Pc, used: nat)
      requires |env| > 0
      modifies this
      ensures 0 < used <= |env| && (pc != Critical ==> used == |env|)
      ensures (pc, state) == LockRun(env[..used])
      ensures env[0] == 0 ==> pc == Critical && used == 1 && state == 1
      ensures pc == Critical ==> env[used - 1] == 0 && state == if used == 1 then 1 else 2
    {
      state := env[0];
      used := 1;
      var ok, expected := CompareExchangeStrong(FREE, LOCKED);
      if ok { return Critical, used; }
      pc := if expected != CONTENDED then Swap else Wait;
      if expected != CONTENDED {
        if used == |env| { return; }
        LockRunStep(env, used);
        state := env[used];
        used := used + 1;
        expected := Exchange(CONTENDED);
        pc := if expected != FREE then Wait else Critical;
      }
      while expected != FREE
        invariant 0 < used <= |env|
        invariant pc == if expected != FREE then Wait else Critical
        invariant (pc, state) == LockRun(env[..used])
        invariant used > 1 || expected != FREE
        invariant pc == Critical ==> env[used - 1] == 0 && state == 2
        decreases |env| - used
      {
        if used == |env| { return; }
        pc, used := FutexWait(env, used);
        if used == |env| { return; }
        LockRunStep(env, used);
        state := env[used];
        used := used + 1;
        expected := Exchange(CONTENDED);
        pc := if expected != FREE then Wait else Critical;
      }
    }

    /** FutexWait(&state, CONTENDED): sleeps only if it finds the word CONTENDED, then needs a wake. */
    method FutexWait(env: seq<nat>, from: nat) returns (pc: Pc, used: nat)
      requires 0 < from < |env| && (Wait, state) == LockRun(env[..from])
      modifies this
      ensures from < used <= |env| && (used < |env| ==> pc == Swap) && (pc == Swap || pc == Asleep)
      ensures (pc, state) == LockRun(env[..used])
    {
      LockRunStep(env, from);
      state := env[from];
      used := from + 1;
      if state != CONTENDED { return Swap, used; }
      if used == |env| { return Asleep, used; }
      LockRunStep(env, used);
      state := env[used];
      return Swap, used + 1;
    }

    /** Any word to FREE; the caller must wake one sleeper exactly when the word was CONTENDED. */
    method Unlock() returns (wake: bool)
      modifies this
      ensures (if wake then Wake else Start, state) == UnlockStep(old(state))
      ensures wake == (old(state) == 2) && state == 0
    {
      var prev := Exchange(FREE);
      wake := prev == CONTENDED;
    }
  }
}
