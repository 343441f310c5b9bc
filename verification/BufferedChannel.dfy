/** The circular buffer of the bounded channel, as a value and as the fields of the source's class. */
module ChannelBuffer {

  /** The fields `buffer`, `head`, `tail` and `size`; the capacity is the length of the buffer. */
  datatype Ring<T> = Ring(buffer: seq<T>, head: nat, tail: nat, size: nat)

  predicate Good<T>(r: Ring<T>) {
    && r.head < |r.buffer|
    && r.size <= |r.buffer|
    && r.tail == (r.head + r.size) % |r.buffer|
  }

  /** The buffered values, oldest first. */
  function Contents<T>(r: Ring<T>): (c: seq<T>)
    requires Good(r)
    ensures |c| == r.size
  {
    seq(r.size, i requires 0 <= i < r.size => r.buffer[(r.head + i) % |r.buffer|])
  }

  function Push<T>(r: Ring<T>, v: T): Ring<T>
    requires Good(r)
  {
    Ring(r.buffer[r.tail := v], r.head, (r.tail + 1) % |r.buffer|, r.size + 1)
  }

  function Pop<T>(r: Ring<T>): Ring<T>
    requires Good(r) && r.size > 0
  {
    Ring(r.buffer, (r.head + 1) % |r.buffer|, r.tail, r.size - 1)
  }

  /** One step around the circle, for an offset below the capacity. */
  lemma Around(cap: nat, a: nat, i: nat)
    requires a < cap && i <= cap
    ensures (a + i) % cap == if a + i < cap then a + i else a + i - cap
  {
  }

  /** Push appends exactly one value behind the others. */
  lemma PushAppends<T>(r: Ring<T>, v: T)
    requires Good(r) && r.size < |r.buffer|
    ensures Good(Push(r, v)) && Contents(Push(r, v)) == Contents(r) + [v]
  {
    var cap, r' := |r.buffer|, Push(r, v);
    Around(cap, r.head, r.size);
    Around(cap, r.head, r.size + 1);
    Around(cap, r.tail, 1);
    forall i | 0 <= i < r'.size
      ensures Contents(r')[i] == (Contents(r) + [v])[i]
    {
      Around(cap, r.head, i);
    }
  }

  /** Pop removes exactly the oldest value. */
  lemma PopRemovesFirst<T>(r: Ring<T>)
    requires Good(r) && r.size > 0
    ensures Good(Pop(r)) && Contents(r) == [r.buffer[r.head]] + Contents(Pop(r))
  {
    var cap, r' := |r.buffer|, Pop(r);
    Around(cap, r.head, 1);
    Around(cap, r.head, r.size);
    Around(cap, r'.head, r'.size);
    Around(cap, r.head, 0);
    forall i | 0 <= i < r'.size
      ensures Contents(r)[i + 1] == Contents(r')[i]
    {
      Around(cap, r.head, i + 1);
      Around(cap, r'.head, i);
    }
  }

  datatype SendResult = Sent | SendOnClosed | SendWaits
  datatype RecvResult<+T> = Received(value: T) | Ended | RecvWaits

  /**
   The channel used by one thread alone: where the source would wait on a condition variable with
   its predicate false, the method reports that and changes nothing.
   */
  class BufferedChannel<T(0)> {
    const buffer: array<T>
    var head: nat
    var tail: nat
    var size: nat
    var closed: bool

    ghost function View(): Ring<T>
      reads this, buffer
    {
      Ring(buffer[..], head, tail, size)
    }

    ghost predicate Valid()
      reads this, buffer
    {
      Good(View())
    }

    constructor (size: int)
      ensures Valid() && fresh(buffer) && Contents(View()) == [] && !closed
      ensures buffer.Length == if size > 0 then size else 1
    {
      var capacity := if size > 0 then size else 1;
      buffer := new T[capacity];
      head, tail, this.size, closed := 0, 0, 0, false;
    }

    method Send(value: T) returns (result: SendResult)
      requires Valid()
      modifies this, buffer
      ensures Valid() && closed == old(closed)
      ensures result == if closed then SendOnClosed else if old(size) < buffer.Length then Sent else SendWaits
      ensures Contents(View()) == if result.Sent? then old(Contents(View())) + [value] else old(Contents(View()))
      ensures View() == if result.Sent? then Push(old(View()), value) else old(View())
    {
      if !(closed || size < buffer.Length) { return SendWaits; }
      if closed { return SendOnClosed; }
      PushAppends(View(), value);
      buffer[tail] := value;
      tail := (tail + 1) % buffer.Length;
      size := size + 1;
      result := Sent;
    }

    method Recv() returns (result: RecvResult<T>)
      requires Valid()
      modifies this
      ensures Valid() && closed == old(closed)
      ensures match result
              case Received(v) => old(Contents(View())) == [v] + Contents(View())
                                  && old(size) > 0 && View() == Pop(old(View()))
              case Ended => closed && Contents(View()) == [] && View() == old(View())
              case RecvWaits => !closed && Contents(View()) == [] && View() == old(View())
    {
      if !(closed || size > 0) { return RecvWaits; }
      if size == 0 { return Ended; }
      PopRemovesFirst(View());
      result := Received(buffer[head]);
      head := (head + 1) % buffer.Length;
      size := size - 1;
    }

    method Close() returns (notify: bool)
      requires Valid()
      modifies this`closed
      ensures closed && notify == !old(closed)
      ensures View() == old(View())
    {
      notify := !closed;
      closed := true;
    }
  }
}

/**
 The channel as a monitor, with any number of threads sending, receiving and closing.

 The mutex, the two condition variables and the circular buffer are shared; waiting releases the
 mutex and falls asleep in one step, a woken thread must take the mutex again and re-evaluate its
 predicate, threads may wake for no reason, and a notification is a step after the unlock.
 */
module ChannelMonitor {
  import opened Options
  import opened Sums
  import opened ChannelBuffer

  datatype Pc<T> =
    | Idle
    | SEnter(sv: T, swoken: bool)  // Send, waiting for the mutex; woken from notFull or not
    | SCheck(sv: T, swoken: bool)  // Send, holds the mutex, about to evaluate the predicate
    | SAsleep(sv: T)               // asleep on notFull
    | SUnlock(sv: T)               // value stored, still holds the mutex
    | SNotify(sv: T)               // about to call notEmpty.notify_one
    | REnter(rwoken: bool)
    | RCheck(rwoken: bool)
    | RAsleep                      // asleep on notEmpty
    | RUnlock(rv: T)               // value taken, still holds the mutex
    | RNotify(rv: T)               // about to call notFull.notify_one
    | CEnter
    | CCheck
    | CUnlock
    | CNotifyEmpty                 // about to call notEmpty.notify_all
    | CNotifyFull                  // about to call notFull.notify_all

  datatype Call<T> = Send(v: T) | Recv | Close

  /** How a call ends: a Send returns or throws, a Recv returns a value or nullopt. */
  datatype Result<T> = SendDone | SendThrew | Got(v: T) | Nullopt | CloseDone

  /** Thread i came back from a call. */
  datatype Return<T> = Return(i: nat, call: Call<T>, result: Result<T>)

  /**
   `sent` and `received` are the values of the Sends and Recvs that took effect, in order; `returned`
   says how each call ended.
   */
  datatype State<T> = State(
    ring: Ring<T>, closed: bool, holder: Option<nat>, threads: seq<Pc<T>>,
    sent: seq<T>, received: seq<T>, returned: seq<Return<T>>)

  datatype Action<T> =
    | Begin(i: nat, call: Call<T>)
    | Acquire(i: nat)
    | Check(i: nat)               // the code under the mutex, up to its release or the wait
    | Unlock(i: nat)
    | NotifyOne(i: nat, j: nat)   // notify_one wakes j
    | NotifyNobody(i: nat)        // notify_one finds nobody asleep
    | NotifyAll(i: nat)
    | Spurious(i: nat)

  predicate Holds<T>(pc: Pc<T>) {
    pc.SCheck? || pc.SUnlock? || pc.RCheck? || pc.RUnlock? || pc.CCheck? || pc.CUnlock?
  }

  predicate Enabled<T>(s: State<T>, a: Action<T>) {
    && a.i < |s.threads|
    && Good(s.ring)
    && var pc := s.threads[a.i];
       match a
       case Begin(i, call) => pc.Idle?
       case Acquire(i) => (pc.SEnter? || pc.REnter? || pc.CEnter?) && s.holder == None
       case Check(i) => pc.SCheck? || pc.RCheck? || pc.CCheck?
       case Unlock(i) => pc.SUnlock? || pc.RUnlock? || pc.CUnlock?
       case NotifyOne(i, j) =>
         && j < |s.threads|
         && ((pc.SNotify? && s.threads[j].RAsleep?) || (pc.RNotify? && s.threads[j].SAsleep?))
       case NotifyNobody(i) =>
         || (pc.SNotify? && forall j :: 0 <= j < |s.threads| ==> !s.threads[j].RAsleep?)
         || (pc.RNotify? && forall j :: 0 <= j < |s.threads| ==> !s.threads[j].SAsleep?)
       case NotifyAll(i) => pc.CNotifyEmpty? || pc.CNotifyFull?
       case Spurious(i) => pc.SAsleep? || pc.RAsleep?
  }

  function Go<T>(s: State<T>, i: nat, pc: Pc<T>): State<T>
    requires i < |s.threads|
  {
    s.(threads := s.threads[i := pc])
  }

  function Woken<T>(pc: Pc<T>): Pc<T> {
    if pc.SAsleep? then SEnter(pc.sv, true) else if pc.RAsleep? then REnter(true) else pc
  }

  function WakeAll<T>(threads: seq<Pc<T>>, receivers: bool): seq<Pc<T>> {
    seq(|threads|, k requires 0 <= k < |threads| =>
      if (if receivers then threads[k].RAsleep? else threads[k].SAsleep?) then Woken(threads[k]) else threads[k])
  }

  /** Thread i returns from its call. */
  function Back<T>(s: State<T>, i: nat, call: Call<T>, result: Result<T>): State<T>
    requires i < |s.threads|
  {
    Go(s, i, Idle).(returned := s.returned + [Return(i, call, result)])
  }

  function CheckSend<T>(s: State<T>, i: nat): State<T>
    requires i < |s.threads| && s.threads[i].SCheck? && Good(s.ring)
  {
    var v := s.threads[i].sv;
    if !(s.closed || s.ring.size < |s.ring.buffer|) then Go(s, i, SAsleep(v)).(holder := None)
    else if s.closed then Back(s, i, Send(v), SendThrew).(holder := None)
    else Go(s, i, SUnlock(v)).(ring := Push(s.ring, v), sent := s.sent + [v])
  }

  function CheckRecv<T>(s: State<T>, i: nat): State<T>
    requires i < |s.threads| && s.threads[i].RCheck? && Good(s.ring)
  {
    if !(s.closed || s.ring.size > 0) then Go(s, i, RAsleep).(holder := None)
    else if s.ring.size == 0 then Back(s, i, Recv, Nullopt).(holder := None)
    else
      var v := s.ring.buffer[s.ring.head];
      Go(s, i, RUnlock(v)).(ring := Pop(s.ring), received := s.received + [v])
  }

  function CheckClose<T>(s: State<T>, i: nat): State<T>
    requires i < |s.threads| && s.threads[i].CCheck?
  {
    if s.closed then Back(s, i, Close, CloseDone).(holder := None) else Go(s, i, CUnlock).(closed := true)
  }

  /** The return of a Send (after notEmpty.notify_one) or of a Recv (after notFull.notify_one). */
  function Finish<T>(s: State<T>, i: nat): State<T>
    requires i < |s.threads| && (s.threads[i].SNotify? || s.threads[i].RNotify?)
  {
    if s.threads[i].SNotify? then Back(s, i, Send(s.threads[i].sv), SendDone) else Back(s, i, Recv, Got(s.threads[i].rv))
  }

  function Apply<T>(s: State<T>, a: Action<T>): State<T>
    requires Enabled(s, a)
  {
    var pc := s.threads[a.i];
    match a
    case Begin(i, call) =>
      Go(s, i, if call.Send? then SEnter(call.v, false) else if call.Recv? then REnter(false) else CEnter)
    case Acquire(i) =>
      Go(s, i, if pc.SEnter? then SCheck(pc.sv, pc.swoken) else if pc.REnter? then RCheck(pc.rwoken) else CCheck)
        .(holder := Some(i))
    case Check(i) =>
      if pc.SCheck? then CheckSend(s, i) else if pc.RCheck? then CheckRecv(s, i) else CheckClose(s, i)
    case Unlock(i) =>
      Go(s, i, if pc.SUnlock? then SNotify(pc.sv) else if pc.RUnlock? then RNotify(pc.rv) else CNotifyEmpty).(holder := None)
    case NotifyOne(i, j) => Go(Finish(s, i), j, Woken(s.threads[j]))
    case NotifyNobody(i) => Finish(s, i)
    case NotifyAll(i) =>
      var woken := s.(threads := WakeAll(s.threads, pc.CNotifyEmpty?));
      if pc.CNotifyEmpty? then Go(woken, i, CNotifyFull) else Back(woken, i, Close, CloseDone)
    case Spurious(i) => Go(s, i, Woken(pc))
  }

  function Init<T>(n: nat, buffer: seq<T>): State<T> {
    State(Ring(buffer, 0, 0, 0), false, None, seq(n, _ => Idle), [], [], [])
  }

  predicate ValidRun<T>(s: State<T>, acts: seq<Action<T>>)
    decreases |acts|
  {
    acts == [] || (Enabled(s, acts[0]) && ValidRun(Apply(s, acts[0]), acts[1..]))
  }

  function Final<T>(s: State<T>, acts: seq<Action<T>>): State<T>
    requires ValidRun(s, acts)
    decreases |acts|
  {
    if acts == [] then s else Final(Apply(s, acts[0]), acts[1..])
  }

  // ---------- The invariant ----------

  function OwesNotEmpty<T>(pc: Pc<T>): nat { if pc.SUnlock? || pc.SNotify? then 1 else 0 }
  function OwesNotFull<T>(pc: Pc<T>): nat { if pc.RUnlock? || pc.RNotify? then 1 else 0 }
  function WokenReceiver<T>(pc: Pc<T>): nat {
    if (pc.REnter? && pc.rwoken) || (pc.RCheck? && pc.rwoken) then 1 else 0
  }
  function WokenSender<T>(pc: Pc<T>): nat {
    if (pc.SEnter? && pc.swoken) || (pc.SCheck? && pc.swoken) then 1 else 0
  }

  ghost predicate ReceiverAsleep<T>(s: State<T>) { exists i :: 0 <= i < |s.threads| && s.threads[i].RAsleep? }
  ghost predicate SenderAsleep<T>(s: State<T>) { exists i :: 0 <= i < |s.threads| && s.threads[i].SAsleep? }

  ghost predicate Locking<T>(s: State<T>) {
    && (s.holder.Some? ==> s.holder.value < |s.threads|)
    && (forall i :: 0 <= i < |s.threads| ==> (Holds(s.threads[i]) <==> s.holder == Some(i)))
  }

  /** The values of the Sends that returned normally. */
  ghost function SendsDone<T>(rs: seq<Return<T>>): multiset<T> {
    if rs == [] then multiset{}
    else
      var last := rs[|rs| - 1];
      SendsDone(rs[..|rs| - 1]) + if last.call.Send? && last.result.SendDone? then multiset{last.call.v} else multiset{}
  }

  /** The values Recvs returned. */
  ghost function RecvsDone<T>(rs: seq<Return<T>>): multiset<T> {
    if rs == [] then multiset{}
    else
      var last := rs[|rs| - 1];
      RecvsDone(rs[..|rs| - 1]) + if last.result.Got? then multiset{last.result.v} else multiset{}
  }

  /** The value of a Send that took effect and has not returned, and of such a Recv. */
  function InSend<T>(pc: Pc<T>): Option<T> { if pc.SUnlock? || pc.SNotify? then Some(pc.sv) else None }
  function InRecv<T>(pc: Pc<T>): Option<T> { if pc.RUnlock? || pc.RNotify? then Some(pc.rv) else None }
  function One<T>(v: Option<T>): multiset<T> { if v.Some? then multiset{v.value} else multiset{} }

  ghost function Sending<T>(threads: seq<Pc<T>>): multiset<T> {
    if threads == [] then multiset{}
    else One(InSend(threads[0])) + Sending(threads[1..])
  }

  ghost function Receiving<T>(threads: seq<Pc<T>>): multiset<T> {
    if threads == [] then multiset{}
    else One(InRecv(threads[0])) + Receiving(threads[1..])
  }

  /** A call ends as its kind does; a Send throws and a Recv ends only when they may. */
  ghost predicate ReturnOk<T>(s: State<T>, x: Return<T>) {
    match x.call
    case Send(_) => x.result.SendDone? || (x.result.SendThrew? && s.closed)
    case Recv => x.result.Got? || (x.result.Nullopt? && s.closed && s.ring.size == 0)
    case Close => x.result.CloseDone? && s.closed
  }

  ghost predicate Fifo<T>(s: State<T>) {
    && Good(s.ring)
    && s.sent == s.received + Contents(s.ring)
  }

  /** Each value sent has one Send that returned normally or has still to notify, each value received one such Recv. */
  ghost predicate Ledger<T>(s: State<T>) {
    && multiset(s.sent) == SendsDone(s.returned) + Sending(s.threads)
    && multiset(s.received) == RecvsDone(s.returned) + Receiving(s.threads)
  }

  ghost predicate Returns<T>(s: State<T>) {
    forall k :: 0 <= k < |s.returned| ==> ReturnOk(s, s.returned[k])
  }

  ghost predicate NoLostWakeup<T>(s: State<T>) {
    !s.closed ==>
      && (ReceiverAsleep(s) ==> s.ring.size <= Sum(s.threads, OwesNotEmpty) + Sum(s.threads, WokenReceiver))
      && (SenderAsleep(s) ==>
            |s.ring.buffer| - s.ring.size <= Sum(s.threads, OwesNotFull) + Sum(s.threads, WokenSender))
  }

  ghost predicate CloserAt<T>(s: State<T>, atFull: bool) {
    exists i :: 0 <= i < |s.threads| &&
                (s.threads[i].CUnlock? || s.threads[i].CNotifyEmpty? || (atFull && s.threads[i].CNotifyFull?))
  }

  ghost predicate CloseWakes<T>(s: State<T>) {
    && (s.closed ==> (ReceiverAsleep(s) ==> CloserAt(s, false)) && (SenderAsleep(s) ==> CloserAt(s, true)))
    && ((exists i :: 0 <= i < |s.threads| &&
                     (s.threads[i].CUnlock? || s.threads[i].CNotifyEmpty? || s.threads[i].CNotifyFull?)) ==> s.closed)
  }

  ghost predicate Inv<T>(s: State<T>) {
    Locking(s) && Fifo(s) && NoLostWakeup(s) && CloseWakes(s) && Ledger(s) && Returns(s)
  }

  lemma InitInv<T>(n: nat, buffer: seq<T>)
    requires buffer != []
    ensures Inv(Init(n, buffer))
  {
    var s := Init(n, buffer);
    assert s.threads == seq(n, _ => Idle);
    SumReplicate<Pc<T>>(n, Idle, OwesNotEmpty);
    SumReplicate<Pc<T>>(n, Idle, OwesNotFull);
    NobodyFlying<T>(n);
  }

  lemma {:induction false} NobodyFlying<T>(n: nat)
    ensures Sending<T>(seq(n, _ => Idle)) == Receiving<T>(seq(n, _ => Idle)) == multiset{}
  {
    if n > 0 {
      var idle: seq<Pc<T>> := seq(n, _ => Idle);
      assert idle[1..] == seq(n - 1, _ => Idle) && idle[0] == Idle;
      NobodyFlying<T>(n - 1);
    }
  }

  lemma Shift<T>(a: multiset<T>, b: multiset<T>, c: multiset<T>, x: multiset<T>, y: multiset<T>)
    requires b + x == c + y
    ensures (a + b) + x == (a + c) + y
  {
    assert (a + b) + x == a + (b + x);
  }

  lemma Swap<T>(x: multiset<T>, y: multiset<T>, rest: multiset<T>)
    ensures (y + rest) + x == (x + rest) + y
  {
  }

  /** How the values under way move when thread i goes to pc. */
  lemma {:induction false} FlyingMove<T>(threads: seq<Pc<T>>, i: nat, pc: Pc<T>)
    requires i < |threads|
    ensures Sending(threads[i := pc]) + One(InSend(threads[i])) == Sending(threads) + One(InSend(pc))
    ensures Receiving(threads[i := pc]) + One(InRecv(threads[i])) == Receiving(threads) + One(InRecv(pc))
    decreases |threads|
  {
    hide InSend, InRecv, One;
    var first, rest := threads[0], threads[1..];
    if i == 0 {
      assert threads[0 := pc][1..] == rest;
      Swap(One(InSend(first)), One(InSend(pc)), Sending(rest));
      Swap(One(InRecv(first)), One(InRecv(pc)), Receiving(rest));
    } else {
      assert threads[i := pc][1..] == rest[i - 1 := pc] && threads[i := pc][0] == first;
      FlyingMove(rest, i - 1, pc);
      Shift(One(InSend(first)), Sending(rest[i - 1 := pc]), Sending(rest), One(InSend(threads[i])), One(InSend(pc)));
      Shift(One(InRecv(first)), Receiving(rest[i - 1 := pc]), Receiving(rest), One(InRecv(threads[i])), One(InRecv(pc)));
    }
  }

  /** What one return adds to the values done. */
  function SentBack<T>(x: Return<T>): Option<T> { if x.call.Send? && x.result.SendDone? then Some(x.call.v) else None }
  function GotBack<T>(x: Return<T>): Option<T> { if x.result.Got? then Some(x.result.v) else None }

  /** What a step adds to the values that took effect or are done, the thread that makes it carries less or more. */
  lemma Balance<T>(all: multiset<T>, done: multiset<T>, flying: multiset<T>, flying': multiset<T>,
                   was: multiset<T>, now: multiset<T>, more: multiset<T>, back: multiset<T>)
    requires all == done + flying && flying' + was == flying + now && more + was == now + back
    ensures all + more == (done + back) + flying'
  {
    forall x: T
      ensures (all + more)[x] == ((done + back) + flying')[x]
    {
      assert flying'[x] + was[x] == (flying' + was)[x] == (flying + now)[x] == flying[x] + now[x];
      assert more[x] + was[x] == (more + was)[x] == (now + back)[x] == now[x] + back[x];
      assert all[x] == done[x] + flying[x];
    }
    assert forall x: T :: x in all + more || x in (done + back) + flying' ==> (all + more)[x] == ((done + back) + flying')[x];
  }

  /** A value takes effect and is carried from then on, is carried on, or is carried no more and done. */
  predicate Settled<T(==)>(more: Option<T>, was: Option<T>, now: Option<T>, back: Option<T>) {
    || (more == now && was == None && back == None)
    || (more == None && was == now && back == None)
    || (more == None && now == None && was == back)
  }

  /** A step of thread i that sends `sent`, receives `received` and returns `back`, at most one of each. */
  lemma LedgerMoves<T>(s: State<T>, s': State<T>, i: nat, sent: Option<T>, received: Option<T>, back: Option<Return<T>>)
    requires Ledger(s) && i < |s.threads| == |s'.threads| && s'.threads == s.threads[i := s'.threads[i]]
    requires s'.sent == (if sent.Some? then s.sent + [sent.value] else s.sent)
    requires s'.received == (if received.Some? then s.received + [received.value] else s.received)
    requires s'.returned == (if back.Some? then s.returned + [back.value] else s.returned)
    requires Settled(sent, InSend(s.threads[i]), InSend(s'.threads[i]), if back.Some? then SentBack(back.value) else None)
    requires Settled(received, InRecv(s.threads[i]), InRecv(s'.threads[i]), if back.Some? then GotBack(back.value) else None)
    ensures Ledger(s')
  {
    hide InSend, InRecv, Sending, Receiving, SendsDone, RecvsDone, SentBack, GotBack, Settled, One;
    FlyingMove(s.threads, i, s'.threads[i]);
    if back.Some? { OneMoreReturn(s.returned, back.value); }
    var was, now := s.threads[i], s'.threads[i];
    var sb := if back.Some? then SentBack(back.value) else None;
    var gb := if back.Some? then GotBack(back.value) else None;
    OneOfNone<T>();
    BalanceOne(s.sent, sent, SendsDone(s.returned), Sending(s.threads), Sending(s'.threads), InSend(was), InSend(now), sb);
    BalanceOne(s.received, received, RecvsDone(s.returned), Receiving(s.threads), Receiving(s'.threads),
               InRecv(was), InRecv(now), gb);
  }

  lemma OneOfNone<T>()
    ensures One<T>(None) == multiset{} && forall m: multiset<T> :: m + One(None) == m
  {
  }

  lemma BalanceOne<T>(all: seq<T>, more: Option<T>, done: multiset<T>, flying: multiset<T>, flying': multiset<T>,
                      was: Option<T>, now: Option<T>, back: Option<T>)
    requires multiset(all) == done + flying && flying' + One(was) == flying + One(now) && Settled(more, was, now, back)
    ensures multiset(if more.Some? then all + [more.value] else all) == (done + One(back)) + flying'
  {
    assert One(more) + One(was) == One(now) + One(back);
    Balance(multiset(all), done, flying, flying', One(was), One(now), One(more), One(back));
    assert multiset(if more.Some? then all + [more.value] else all) == multiset(all) + One(more);
  }

  lemma {:induction false} FlyingSame<T>(a: seq<Pc<T>>, b: seq<Pc<T>>)
    requires |a| == |b| && forall k :: 0 <= k < |a| ==> InSend(a[k]) == InSend(b[k]) && InRecv(a[k]) == InRecv(b[k])
    ensures Sending(a) == Sending(b) && Receiving(a) == Receiving(b)
    decreases |a|
  {
    if a != [] {
      assert InSend(a[0]) == InSend(b[0]) && InRecv(a[0]) == InRecv(b[0]);
      assert forall k :: 0 <= k < |a[1..]| ==> a[1..][k] == a[k + 1] && b[1..][k] == b[k + 1];
      FlyingSame(a[1..], b[1..]);
    }
  }

  /** How the values done move with one more return. */
  lemma OneMoreReturn<T>(rs: seq<Return<T>>, x: Return<T>)
    ensures SendsDone(rs + [x]) == SendsDone(rs) + One(SentBack(x))
    ensures RecvsDone(rs + [x]) == RecvsDone(rs) + One(GotBack(x))
  {
    assert (rs + [x])[..|rs|] == rs;
  }

  /** How the four counts move when thread i goes to pc. */
  lemma CountsMove<T>(threads: seq<Pc<T>>, i: nat, pc: Pc<T>)
    requires i < |threads|
    ensures var t := threads[i := pc];
            && Sum(t, OwesNotEmpty) + OwesNotEmpty(threads[i]) == Sum(threads, OwesNotEmpty) + OwesNotEmpty(pc)
            && Sum(t, OwesNotFull) + OwesNotFull(threads[i]) == Sum(threads, OwesNotFull) + OwesNotFull(pc)
            && Sum(t, WokenReceiver) + WokenReceiver(threads[i]) == Sum(threads, WokenReceiver) + WokenReceiver(pc)
            && Sum(t, WokenSender) + WokenSender(threads[i]) == Sum(threads, WokenSender) + WokenSender(pc)
  {
    SumUpdate(threads, i, pc, OwesNotEmpty);
    SumUpdate(threads, i, pc, OwesNotFull);
    SumUpdate(threads, i, pc, WokenReceiver);
    SumUpdate(threads, i, pc, WokenSender);
  }

  lemma StepLocking<T>(s: State<T>, a: Action<T>)
    requires Inv(s) && Enabled(s, a)
    ensures Locking(Apply(s, a))
  {
    hide Fifo, NoLostWakeup, CloseWakes, Ledger, Returns, Good, Apply;
    if a.Acquire? || a.Check? || a.Unlock? {
      HolderIs(s, a.i);
      HolderSteps(s, a);
      LockingMoves(s, Apply(s, a), a.i);
    } else {
      OthersHoldOn(s, a);
      LockingKept(s, Apply(s, a));
    }
  }

  lemma HolderSteps<T>(s: State<T>, a: Action<T>)
    requires Enabled(s, a) && (a.Acquire? || a.Check? || a.Unlock?)
    requires Holds(s.threads[a.i]) <==> s.holder == Some(a.i)
    ensures var s' := Apply(s, a);
            && |s'.threads| == |s.threads| && (forall k :: 0 <= k < |s.threads| && k != a.i ==> s'.threads[k] == s.threads[k])
            && (s.holder == None || s.holder == Some(a.i))
            && s'.holder == if Holds(s'.threads[a.i]) then Some(a.i) else None
  {
    hide Good, Push, Pop, Woken, WakeAll, Finish;
  }

  lemma OthersHoldOn<T>(s: State<T>, a: Action<T>)
    requires Enabled(s, a) && !a.Acquire? && !a.Check? && !a.Unlock?
    ensures var s' := Apply(s, a);
            && s'.holder == s.holder && |s'.threads| == |s.threads|
            && (forall k :: 0 <= k < |s.threads| ==> (Holds(s'.threads[k]) <==> Holds(s.threads[k])))
  {
    hide Good, CheckSend, CheckRecv, CheckClose;
  }

  lemma HolderIs<T>(s: State<T>, i: nat)
    requires Locking(s) && i < |s.threads|
    ensures Holds(s.threads[i]) <==> s.holder == Some(i)
  {
  }

  /** A thread takes the mutex when it is free, keeps it, or gives it up. */
  lemma LockingMoves<T>(s: State<T>, s': State<T>, i: nat)
    requires Locking(s) && i < |s.threads| && |s'.threads| == |s.threads|
    requires forall k :: 0 <= k < |s.threads| && k != i ==> s'.threads[k] == s.threads[k]
    requires s.holder == None || s.holder == Some(i)
    requires s'.holder == if Holds(s'.threads[i]) then Some(i) else None
    ensures Locking(s')
  {
    hide Holds;
  }

  lemma LockingKept<T>(s: State<T>, s': State<T>)
    requires Locking(s) && s'.holder == s.holder && |s'.threads| == |s.threads|
    requires forall k :: 0 <= k < |s.threads| ==> (Holds(s'.threads[k]) <==> Holds(s.threads[k]))
    ensures Locking(s')
  {
    hide Holds;
  }

  /** A thread moves without touching the buffer, the flag or the histories, and does not fall asleep. */
  lemma MoveCounts<T>(s: State<T>, s': State<T>, i: nat)
    requires Fifo(s) && NoLostWakeup(s) && i < |s.threads| == |s'.threads| && (s.closed ==> s'.closed)
    requires s' == s.(threads := s.threads[i := s'.threads[i]], holder := s'.holder, closed := s'.closed, returned := s'.returned)
    requires var was, pc := s.threads[i], s'.threads[i];
             && !pc.RAsleep? && !pc.SAsleep?
             && OwesNotEmpty(pc) == OwesNotEmpty(was) && OwesNotFull(pc) == OwesNotFull(was)
             && WokenReceiver(pc) >= WokenReceiver(was) && WokenSender(pc) >= WokenSender(was)
    ensures Fifo(s') && NoLostWakeup(s')
  {
    hide Contents, Sum;
    CountsMove(s.threads, i, s'.threads[i]);
    assert ReceiverAsleep(s') ==> ReceiverAsleep(s);
    assert SenderAsleep(s') ==> SenderAsleep(s);
  }

  lemma CheckSendCounts<T>(s: State<T>, i: nat)
    requires Fifo(s) && NoLostWakeup(s) && i < |s.threads| && s.threads[i].SCheck?
    ensures Fifo(CheckSend(s, i)) && NoLostWakeup(CheckSend(s, i))
  {
    hide Contents, Sum;
    var s' := CheckSend(s, i);
    CountsMove(s.threads, i, s'.threads[i]);
    assert ReceiverAsleep(s') ==> ReceiverAsleep(s);
    if s'.threads[i].SUnlock? {
      var v := s.threads[i].sv;
      PushAppends(s.ring, v);
      assert (s.received + Contents(s.ring)) + [v] == s.received + (Contents(s.ring) + [v]);
      assert SenderAsleep(s') ==> SenderAsleep(s);
    }
  }

  lemma CheckRecvCounts<T>(s: State<T>, i: nat)
    requires Fifo(s) && NoLostWakeup(s) && i < |s.threads| && s.threads[i].RCheck?
    ensures Fifo(CheckRecv(s, i)) && NoLostWakeup(CheckRecv(s, i))
  {
    hide Contents, Sum;
    var s' := CheckRecv(s, i);
    CountsMove(s.threads, i, s'.threads[i]);
    assert SenderAsleep(s') ==> SenderAsleep(s);
    if s'.threads[i].RUnlock? {
      PopRemovesFirst(s.ring);
      assert s.received + ([s.ring.buffer[s.ring.head]] + Contents(s'.ring)) == s'.received + Contents(s'.ring);
      assert ReceiverAsleep(s') ==> ReceiverAsleep(s);
    }
  }

  /** A Send or Recv returns: a notification is no longer owed, because it was given or nobody sleeps. */
  lemma FinishCounts<T>(s: State<T>, i: nat)
    requires Fifo(s) && NoLostWakeup(s) && i < |s.threads| && (s.threads[i].SNotify? || s.threads[i].RNotify?)
    ensures Fifo(Finish(s, i))
    ensures s.threads[i].SNotify? && !ReceiverAsleep(s) ==> NoLostWakeup(Finish(s, i))
    ensures s.threads[i].RNotify? && !SenderAsleep(s) ==> NoLostWakeup(Finish(s, i))
  {
    hide Contents, Sum;
    CountsMove(s.threads, i, Idle);
    var s' := Finish(s, i);
    assert ReceiverAsleep(s') ==> ReceiverAsleep(s);
    assert SenderAsleep(s') ==> SenderAsleep(s);
  }

  /** notify_one trades an owed notification for a woken thread. */
  lemma NotifyOneMoves<T>(s: State<T>, i: nat, j: nat)
    requires Enabled(s, NotifyOne(i, j))
    ensures var t, t', empty := s.threads, Apply(s, NotifyOne(i, j)).threads, s.threads[i].SNotify?;
            && Sum(t', OwesNotEmpty) + (if empty then 1 else 0) == Sum(t, OwesNotEmpty)
            && Sum(t', OwesNotFull) + (if empty then 0 else 1) == Sum(t, OwesNotFull)
            && Sum(t', WokenReceiver) == Sum(t, WokenReceiver) + (if empty then 1 else 0)
            && Sum(t', WokenSender) == Sum(t, WokenSender) + (if empty then 0 else 1)
  {
    var mid := s.threads[i := Idle];
    CountsMove(s.threads, i, Idle);
    CountsMove(mid, j, Woken(s.threads[j]));
  }

  lemma WokenIsAwake<T>(pc: Pc<T>)
    ensures !Woken(pc).RAsleep? && !Woken(pc).SAsleep? && InSend(Woken(pc)) == InSend(pc) && InRecv(Woken(pc)) == InRecv(pc)
  {
  }

  lemma NotifyOneCounts<T>(s: State<T>, i: nat, j: nat)
    requires Fifo(s) && NoLostWakeup(s) && Enabled(s, NotifyOne(i, j))
    ensures Fifo(Apply(s, NotifyOne(i, j))) && NoLostWakeup(Apply(s, NotifyOne(i, j)))
  {
    hide Contents, Sum, Woken, OwesNotEmpty, OwesNotFull, WokenReceiver, WokenSender;
    NotifyOneMoves(s, i, j);
    WokenIsAwake(s.threads[j]);
    var s' := Apply(s, NotifyOne(i, j));
    if k :| 0 <= k < |s'.threads| && s'.threads[k].RAsleep? {
      assert s.threads[k].RAsleep?;
    }
    if k :| 0 <= k < |s'.threads| && s'.threads[k].SAsleep? {
      assert s.threads[k].SAsleep?;
    }
  }

  lemma NotifyAllCounts<T>(s: State<T>, a: Action<T>)
    requires Inv(s) && Enabled(s, a) && a.NotifyAll?
    ensures Fifo(Apply(s, a)) && NoLostWakeup(Apply(s, a))
  {
    hide Contents;
    var s' := Apply(s, a);
    SumCongruent(s.threads, s'.threads, OwesNotEmpty);
    SumCongruent(s.threads, s'.threads, OwesNotFull);
  }

  /** A thread owes notify_all before and after a step or neither, and does not fall asleep on a closed channel. */
  predicate StaysCloser<T>(closed: bool, pc: Pc<T>, pc': Pc<T>) {
    && (pc.CUnlock? || pc.CNotifyEmpty? <==> pc'.CUnlock? || pc'.CNotifyEmpty?)
    && (pc.CNotifyFull? <==> pc'.CNotifyFull?)
    && (closed && pc'.RAsleep? ==> pc.RAsleep?)
    && (closed && pc'.SAsleep? ==> pc.SAsleep?)
  }

  /** A step of one thread that is no closer keeps every closer, and lets nobody fall asleep on a closed channel. */
  lemma MoveCloseWakes<T>(s: State<T>, s': State<T>)
    requires CloseWakes(s) && s'.closed == s.closed && |s'.threads| == |s.threads|
    requires forall k :: 0 <= k < |s.threads| ==> StaysCloser(s.closed, s.threads[k], s'.threads[k])
    ensures CloseWakes(s')
  {
    if s.closed {
      assert ReceiverAsleep(s') ==> ReceiverAsleep(s);
      assert SenderAsleep(s') ==> SenderAsleep(s);
      assert CloserAt(s, false) ==> CloserAt(s', false);
      assert CloserAt(s, true) ==> CloserAt(s', true);
    }
  }

  lemma CheckCloseWakes<T>(s: State<T>, i: nat)
    requires CloseWakes(s) && i < |s.threads| && s.threads[i].CCheck? && !s.closed
    ensures CloseWakes(CheckClose(s, i))
  {
    assert CheckClose(s, i).threads[i].CUnlock?;
  }

  /** notify_all leaves nobody asleep on its condition variable. */
  lemma NotifyAllCloseWakes<T>(s: State<T>, i: nat)
    requires CloseWakes(s) && Enabled(s, NotifyAll(i))
    ensures CloseWakes(Apply(s, NotifyAll(i)))
    ensures if s.threads[i].CNotifyEmpty? then !ReceiverAsleep(Apply(s, NotifyAll(i))) else !SenderAsleep(Apply(s, NotifyAll(i)))
  {
    var s' := Apply(s, NotifyAll(i));
    assert s.closed;
    if s.threads[i].CNotifyEmpty? {
      assert s'.threads[i].CNotifyFull?;
      assert !ReceiverAsleep(s');
    } else {
      assert !SenderAsleep(s');
      assert ReceiverAsleep(s') ==> ReceiverAsleep(s);
      if c :| 0 <= c < |s.threads| && (s.threads[c].CUnlock? || s.threads[c].CNotifyEmpty?) {
        assert s'.threads[c] == s.threads[c];
      }
    }
  }

  lemma StepCloseWakes<T>(s: State<T>, a: Action<T>)
    requires CloseWakes(s) && Enabled(s, a)
    ensures CloseWakes(Apply(s, a))
  {
    hide Good, Holds, CloseWakes;
    if a.NotifyAll? {
      NotifyAllCloseWakes(s, a.i);
    } else if a.Check? && s.threads[a.i].CCheck? && !s.closed {
      CheckCloseWakes(s, a.i);
    } else {
      ClosersStay(s, a);
      MoveCloseWakes(s, Apply(s, a));
    }
  }

  lemma ClosersStay<T>(s: State<T>, a: Action<T>)
    requires Enabled(s, a) && !a.NotifyAll? && !(a.Check? && s.threads[a.i].CCheck? && !s.closed)
    ensures var s' := Apply(s, a);
            && s'.closed == s.closed && |s'.threads| == |s.threads|
            && forall k :: 0 <= k < |s.threads| ==> StaysCloser(s.closed, s.threads[k], s'.threads[k])
  {
    hide Good, Push, Pop, WakeAll, Holds, StaysCloser;
    var s' := Apply(s, a);
    forall k | 0 <= k < |s.threads|
      ensures StaysCloser(s.closed, s.threads[k], s'.threads[k])
    {
      if k == a.i || (a.NotifyOne? && k == a.j) {
        MoverStaysCloser(s, a, k);
      } else {
        assert s'.threads[k] == s.threads[k];
        SameStaysCloser(s.closed, s.threads[k]);
      }
    }
  }

  lemma SameStaysCloser<T>(closed: bool, pc: Pc<T>)
    ensures StaysCloser(closed, pc, pc)
  {
  }

  lemma MoverStaysCloser<T>(s: State<T>, a: Action<T>, k: nat)
    requires Enabled(s, a) && !a.NotifyAll? && !(a.Check? && s.threads[a.i].CCheck? && !s.closed)
    requires k == a.i || (a.NotifyOne? && k == a.j)
    ensures StaysCloser(s.closed, s.threads[k], Apply(s, a).threads[k])
  {
    hide Good, Push, Pop, WakeAll, Holds;
  }

  /** The code under the mutex: a Send or Recv that takes effect, a call that ends, or one that waits. */
  lemma CheckLedger<T>(s: State<T>, i: nat)
    requires Ledger(s) && Enabled(s, Check(i))
    ensures Ledger(Apply(s, Check(i)))
  {
    hide Good, Push, Pop, Ledger;
    var s', pc := Apply(s, Check(i)), s.threads[i];
    if pc.SCheck? {
      LedgerMoves(s, s', i, if s'.threads[i].SUnlock? then Some(pc.sv) else None, None,
                  if s'.threads[i].Idle? then Some(Return(i, Send(pc.sv), SendThrew)) else None);
    } else if pc.RCheck? {
      LedgerMoves(s, s', i, None, if s'.threads[i].RUnlock? then Some(s'.threads[i].rv) else None,
                  if s'.threads[i].Idle? then Some(Return(i, Recv, Nullopt)) else None);
    } else {
      LedgerMoves(s, s', i, None, None, if s.closed then Some(Return(i, Close, CloseDone)) else None);
    }
  }

  lemma FinishLedger<T>(s: State<T>, i: nat)
    requires Ledger(s) && i < |s.threads| && (s.threads[i].SNotify? || s.threads[i].RNotify?)
    ensures Ledger(Finish(s, i))
  {
    hide Ledger;
    var pc := s.threads[i];
    LedgerMoves(s, Finish(s, i), i, None, None,
                Some(if pc.SNotify? then Return(i, Send(pc.sv), SendDone) else Return(i, Recv, Got(pc.rv))));
  }

  lemma NotifyAllLedger<T>(s: State<T>, i: nat)
    requires Ledger(s) && Enabled(s, NotifyAll(i))
    ensures Ledger(Apply(s, NotifyAll(i)))
  {
    hide Ledger, Good;
    var woken := s.(threads := WakeAll(s.threads, s.threads[i].CNotifyEmpty?));
    WakingLedger(s, s.threads[i].CNotifyEmpty?);
    LedgerMoves(woken, Apply(s, NotifyAll(i)), i, None, None,
                if s.threads[i].CNotifyEmpty? then None else Some(Return(i, Close, CloseDone)));
  }

  lemma WakingLedger<T>(s: State<T>, receivers: bool)
    requires Ledger(s)
    ensures Ledger(s.(threads := WakeAll(s.threads, receivers)))
  {
    hide Sending, Receiving, SendsDone, RecvsDone;
    FlyingSame(s.threads, WakeAll(s.threads, receivers));
  }

  lemma StepLedger<T>(s: State<T>, a: Action<T>)
    requires Ledger(s) && Enabled(s, a)
    ensures Ledger(Apply(s, a))
  {
    hide Good, Ledger;
    match a
    case Check(i) => CheckLedger(s, i);
    case NotifyOne(i, j) => NotifyOneLedger(s, i, j);
    case NotifyNobody(i) => FinishLedger(s, i);
    case NotifyAll(i) => NotifyAllLedger(s, i);
    case _ => OtherLedger(s, a);
  }

  lemma OtherLedger<T>(s: State<T>, a: Action<T>)
    requires Ledger(s) && Enabled(s, a) && (a.Begin? || a.Acquire? || a.Unlock? || a.Spurious?)
    ensures Ledger(Apply(s, a))
  {
    hide Good, Ledger, CheckSend, CheckRecv, CheckClose, Finish, WakeAll;
    LedgerMoves(s, Apply(s, a), a.i, None, None, None);
  }

  lemma NotifyOneLedger<T>(s: State<T>, i: nat, j: nat)
    requires Ledger(s) && Enabled(s, NotifyOne(i, j))
    ensures Ledger(Apply(s, NotifyOne(i, j)))
  {
    hide Good, Ledger, Finish;
    FinishLedger(s, i);
    WokenIsAwake(s.threads[j]);
    FinishStates(s, i);
    LedgerMoves(Finish(s, i), Apply(s, NotifyOne(i, j)), j, None, None, None);
  }

  lemma FinishStates<T>(s: State<T>, i: nat)
    requires i < |s.threads| && (s.threads[i].SNotify? || s.threads[i].RNotify?)
    ensures |Finish(s, i).threads| == |s.threads|
    ensures forall k :: 0 <= k < |s.threads| && k != i ==> Finish(s, i).threads[k] == s.threads[k]
  {
  }

  /** A return that was in order stays so, and a new one is. */
  lemma StepReturns<T>(s: State<T>, a: Action<T>)
    requires Returns(s) && CloseWakes(s) && Enabled(s, a)
    ensures Returns(Apply(s, a))
  {
    hide Contents, ReceiverAsleep, SenderAsleep, CloserAt;
    var s' := Apply(s, a);
    assert s.threads[a.i].CNotifyFull? ==> s.closed;
    forall k | 0 <= k < |s'.returned|
      ensures ReturnOk(s', s'.returned[k])
    {
      if k < |s.returned| {
        assert s'.returned[k] == s.returned[k] && ReturnOk(s, s.returned[k]);
      }
    }
  }

  lemma StepInv<T>(s: State<T>, a: Action<T>)
    requires Inv(s) && Enabled(s, a)
    ensures Inv(Apply(s, a))
  {
    hide Locking, Fifo, NoLostWakeup, CloseWakes, Ledger, Returns, Good, Contents, Push, Pop, Sum;
    StepLocking(s, a);
    StepCloseWakes(s, a);
    StepLedger(s, a);
    StepReturns(s, a);
    var pc := s.threads[a.i];
    match a
    case Check(i) =>
      if pc.SCheck? { CheckSendCounts(s, i); }
      else if pc.RCheck? { CheckRecvCounts(s, i); }
      else { MoveCounts(s, Apply(s, a), i); }
    case NotifyOne(i, j) => NotifyOneCounts(s, i, j);
    case NotifyNobody(i) => FinishCounts(s, i);
    case NotifyAll(i) => NotifyAllCounts(s, a);
    case _ => MoveCounts(s, Apply(s, a), a.i);
  }

  lemma {:induction false} RunInv<T>(s: State<T>, acts: seq<Action<T>>)
    requires Inv(s) && ValidRun(s, acts)
    ensures Inv(Final(s, acts))
    decreases |acts|
  {
    if acts != [] {
      StepInv(s, acts[0]);
      RunInv(Apply(s, acts[0]), acts[1..]);
    }
  }

  lemma Reached<T>(n: nat, buffer: seq<T>, acts: seq<Action<T>>) returns (s: State<T>)
    requires buffer != [] && ValidRun(Init(n, buffer), acts)
    ensures s == Final(Init(n, buffer), acts) && Inv(s)
  {
    InitInv(n, buffer);
    RunInv(Init(n, buffer), acts);
    s := Final(Init(n, buffer), acts);
  }

  // ---------- What holds in every run ----------

  /**
   FIFO over every run: the values of the Sends that took effect are the values received followed by
   the buffered ones, in order. They are exactly the values of the Sends that returned normally and of
   those that have still to notify, and the values received exactly those Recvs returned or are about
   to. A Send has thrown only if the channel is closed, and a Recv returned nullopt only if it is
   drained too.
   */
  lemma ChannelIsFifo<T>(n: nat, buffer: seq<T>, acts: seq<Action<T>>)
    requires buffer != [] && ValidRun(Init(n, buffer), acts)
    ensures var s := Final(Init(n, buffer), acts);
            && Good(s.ring)
            && s.sent == s.received + Contents(s.ring)
            && multiset(s.sent) == SendsDone(s.returned) + Sending(s.threads)
            && multiset(s.received) == RecvsDone(s.returned) + Receiving(s.threads)
            && (forall k :: 0 <= k < |s.returned| ==>
                  match s.returned[k].result
                  case SendDone => s.returned[k].call.Send?
                  case SendThrew => s.returned[k].call.Send? && s.closed
                  case Got(v) => s.returned[k].call.Recv? && v in s.received
                  case Nullopt => s.returned[k].call.Recv? && s.closed && s.sent == s.received
                  case CloseDone => s.returned[k].call.Close? && s.closed)
  {
    var s := Reached(n, buffer, acts);
    forall k | 0 <= k < |s.returned|
      ensures s.returned[k].result.Got? ==> s.returned[k].result.v in s.received
      ensures s.returned[k].result.Nullopt? ==> s.sent == s.received
    {
      assert ReturnOk(s, s.returned[k]);
      if s.returned[k].result.Got? {
        DoneContains(s.returned, k);
        assert s.returned[k].result.v in multiset(s.received);
      }
      if s.returned[k].result.Nullopt? {
        assert Contents(s.ring) == [];
      }
    }
  }

  lemma {:induction false} DoneContains<T>(rs: seq<Return<T>>, k: nat)
    requires k < |rs| && rs[k].result.Got?
    ensures rs[k].result.v in RecvsDone(rs)
    decreases |rs|
  {
    if k < |rs| - 1 {
      DoneContains(rs[..|rs| - 1], k);
    }
  }

  // ---------- What a call does ----------

  /**
   A Send under the mutex: with room on an open channel it stores its value behind the others and goes
   on to notify; on a closed one it throws and changes nothing; otherwise it falls asleep.
   */
  lemma SendTakesEffect<T>(s: State<T>, i: nat)
    requires i < |s.threads| && s.threads[i].SCheck? && Good(s.ring)
    ensures Enabled(s, Check(i)) && Good(Apply(s, Check(i)).ring)
    ensures var s', v := Apply(s, Check(i)), s.threads[i].sv;
            && s'.closed == s.closed && s'.received == s.received
            && (forall k :: 0 <= k < |s.threads| && k != i ==> s'.threads[k] == s.threads[k]) && |s'.threads| == |s.threads|
            && if !s.closed && |Contents(s.ring)| < |s.ring.buffer| then
                 && s'.sent == s.sent + [v] && Contents(s'.ring) == Contents(s.ring) + [v]
                 && s'.threads[i] == SUnlock(v) && s'.holder == s.holder && s'.returned == s.returned
               else
                 && s'.sent == s.sent && s'.ring == s.ring && s'.holder == None
                 && if s.closed then s'.threads[i] == Idle && s'.returned == s.returned + [Return(i, Send(v), SendThrew)]
                    else s'.threads[i] == SAsleep(v) && s'.returned == s.returned
  {
    hide Contents;
    if s.ring.size < |s.ring.buffer| {
      PushAppends(s.ring, s.threads[i].sv);
    }
  }

  /**
   A Recv under the mutex: with a value buffered it takes the oldest, closed or not, and goes on to
   notify; with none it returns nullopt if the channel is closed, and otherwise falls asleep.
   */
  lemma RecvTakesEffect<T>(s: State<T>, i: nat)
    requires i < |s.threads| && s.threads[i].RCheck? && Good(s.ring)
    ensures Enabled(s, Check(i)) && Good(Apply(s, Check(i)).ring)
    ensures var s' := Apply(s, Check(i));
            && s'.closed == s.closed && s'.sent == s.sent
            && (forall k :: 0 <= k < |s.threads| && k != i ==> s'.threads[k] == s.threads[k]) && |s'.threads| == |s.threads|
            && if Contents(s.ring) != [] then
                 var v := Contents(s.ring)[0];
                 && s'.received == s.received + [v] && Contents(s'.ring) == Contents(s.ring)[1..]
                 && s'.threads[i] == RUnlock(v) && s'.holder == s.holder && s'.returned == s.returned
               else
                 && s'.received == s.received && s'.ring == s.ring && s'.holder == None
                 && if s.closed then s'.threads[i] == Idle && s'.returned == s.returned + [Return(i, Recv, Nullopt)]
                    else s'.threads[i] == RAsleep && s'.returned == s.returned
  {
    if s.ring.size > 0 {
      PopRemovesFirst(s.ring);
    }
  }

  /** A Close under the mutex closes the channel, and owes both notify_all, unless it was closed already. */
  lemma CloseTakesEffect<T>(s: State<T>, i: nat)
    requires i < |s.threads| && s.threads[i].CCheck? && Good(s.ring)
    ensures Enabled(s, Check(i))
    ensures var s' := Apply(s, Check(i));
            && s'.closed && s'.ring == s.ring && s'.sent == s.sent && s'.received == s.received
            && (forall k :: 0 <= k < |s.threads| && k != i ==> s'.threads[k] == s.threads[k]) && |s'.threads| == |s.threads|
            && if s.closed then
                 s'.threads[i] == Idle && s'.holder == None && s'.returned == s.returned + [Return(i, Close, CloseDone)]
               else s'.threads[i] == CUnlock && s'.holder == s.holder && s'.returned == s.returned
  {
  }

  // ---------- Every call returns as what it was begun ----------

  /** The call a thread is inside. */
  function CallOf<T>(pc: Pc<T>): seq<Call<T>> {
    match pc
    case Idle => []
    case SEnter(v, _) => [Send(v)]
    case SCheck(v, _) => [Send(v)]
    case SAsleep(v) => [Send(v)]
    case SUnlock(v) => [Send(v)]
    case SNotify(v) => [Send(v)]
    case REnter(_) => [Recv]
    case RCheck(_) => [Recv]
    case RAsleep => [Recv]
    case RUnlock(_) => [Recv]
    case RNotify(_) => [Recv]
    case CEnter => [Close]
    case CCheck => [Close]
    case CUnlock => [Close]
    case CNotifyEmpty => [Close]
    case CNotifyFull => [Close]
  }

  /** The calls thread k began in a run. */
  function Begun<T>(acts: seq<Action<T>>, k: nat): seq<Call<T>> {
    if acts == [] then []
    else (if acts[0].Begin? && acts[0].i == k then [acts[0].call] else []) + Begun(acts[1..], k)
  }

  /** The calls thread k came back from. */
  function BackFrom<T>(rs: seq<Return<T>>, k: nat): seq<Call<T>> {
    if rs == [] then []
    else
      var last := rs[|rs| - 1];
      BackFrom(rs[..|rs| - 1], k) + if last.i == k then [last.call] else []
  }

  lemma OneMoreBack<T>(rs: seq<Return<T>>, x: Return<T>, k: nat)
    ensures BackFrom(rs + [x], k) == BackFrom(rs, k) + if x.i == k then [x.call] else []
  {
    assert (rs + [x])[..|rs|] == rs;
  }

  function Last<T>(rs: seq<Return<T>>): Return<T>
    requires rs != []
  {
    rs[|rs| - 1]
  }

  /** Thread i goes on with its call, or returns from it; the calls of others go on. */
  ghost predicate Continues<T>(s: State<T>, s': State<T>, i: nat) {
    && i < |s.threads| == |s'.threads|
    && (forall k :: 0 <= k < |s.threads| && k != i ==> CallOf(s'.threads[k]) == CallOf(s.threads[k]))
    && (|| (CallOf(s'.threads[i]) == CallOf(s.threads[i]) && s'.returned == s.returned)
        || (CallOf(s'.threads[i]) == []
            && s'.returned != [] && s'.returned == s.returned + [Last(s'.returned)]
            && Last(s'.returned).i == i && CallOf(s.threads[i]) == [Last(s'.returned).call]))
  }

  lemma CheckContinues<T>(s: State<T>, i: nat)
    requires Enabled(s, Check(i))
    ensures Continues(s, Apply(s, Check(i)), i)
  {
    hide Good, Push, Pop;
  }

  lemma FinishContinues<T>(s: State<T>, i: nat)
    requires i < |s.threads| && (s.threads[i].SNotify? || s.threads[i].RNotify?)
    ensures Continues(s, Finish(s, i), i)
  {
  }

  lemma NotifyOneContinues<T>(s: State<T>, i: nat, j: nat)
    requires Enabled(s, NotifyOne(i, j))
    ensures Continues(s, Apply(s, NotifyOne(i, j)), i)
  {
    hide Good, Finish;
    FinishContinues(s, i);
    FinishStates(s, i);
  }

  lemma NotifyAllContinues<T>(s: State<T>, i: nat)
    requires Enabled(s, NotifyAll(i))
    ensures Continues(s, Apply(s, NotifyAll(i)), i)
  {
    hide Good;
  }

  lemma OtherContinues<T>(s: State<T>, a: Action<T>)
    requires Enabled(s, a) && (a.Acquire? || a.Unlock? || a.Spurious?)
    ensures Continues(s, Apply(s, a), a.i)
  {
    hide Good, CheckSend, CheckRecv, CheckClose, Finish, WakeAll;
  }

  lemma StepContinues<T>(s: State<T>, a: Action<T>)
    requires Enabled(s, a) && !a.Begin?
    ensures Continues(s, Apply(s, a), a.i)
  {
    hide Good, Continues;
    match a
    case Check(i) => CheckContinues(s, i);
    case NotifyOne(i, j) => NotifyOneContinues(s, i, j);
    case NotifyNobody(i) => FinishContinues(s, i);
    case NotifyAll(i) => NotifyAllContinues(s, i);
    case _ => OtherContinues(s, a);
  }

  /** What thread k has come back from and what it is inside, after one step. */
  lemma StepCalls<T>(s: State<T>, a: Action<T>, k: nat)
    requires Enabled(s, a) && k < |s.threads|
    ensures var s' := Apply(s, a);
            && |s'.threads| == |s.threads|
            && BackFrom(s'.returned, k) + CallOf(s'.threads[k])
               == BackFrom(s.returned, k) + CallOf(s.threads[k]) + if a.Begin? && a.i == k then [a.call] else []
  {
    var s' := Apply(s, a);
    if a.Begin? {
      hide BackFrom, Good;
    } else {
      StepContinues(s, a);
      hide Apply, Enabled, BackFrom, CallOf;
      if s'.returned != s.returned {
        OneMoreBack(s.returned, Last(s'.returned), k);
      }
    }
  }

  lemma {:induction false} CallsFrom<T>(s: State<T>, acts: seq<Action<T>>, k: nat)
    requires ValidRun(s, acts) && k < |s.threads|
    ensures var t := Final(s, acts);
            |t.threads| == |s.threads|
            && BackFrom(t.returned, k) + CallOf(t.threads[k]) == BackFrom(s.returned, k) + CallOf(s.threads[k]) + Begun(acts, k)
    decreases |acts|
  {
    hide Apply, Enabled, CallOf, BackFrom;
    if acts != [] {
      StepCalls(s, acts[0], k);
      CallsFrom(Apply(s, acts[0]), acts[1..], k);
      Associative(BackFrom(s.returned, k) + CallOf(s.threads[k]),
                  if acts[0].Begin? && acts[0].i == k then [acts[0].call] else [], Begun(acts[1..], k));
    }
  }

  lemma Associative<T>(a: seq<T>, b: seq<T>, c: seq<T>)
    ensures a + b + c == a + (b + c)
  {
  }

  /**
   In every run each thread's calls come back in the order it began them, each exactly once and as
   the call it was, a Send with its own value; only the one it is inside is still out.
   */
  lemma EveryCallComesBack<T>(n: nat, buffer: seq<T>, acts: seq<Action<T>>, k: nat)
    requires buffer != [] && ValidRun(Init(n, buffer), acts) && k < n
    ensures var s := Final(Init(n, buffer), acts);
            |s.threads| == n && BackFrom(s.returned, k) + CallOf(s.threads[k]) == Begun(acts, k)
  {
    hide Final, ValidRun;
    CallsFrom(Init(n, buffer), acts, k);
  }

  /** Once the channel is closed no Send takes effect, whatever the threads do. */
  lemma {:induction false} NoSendAfterClose<T>(s: State<T>, acts: seq<Action<T>>)
    requires s.closed && ValidRun(s, acts)
    ensures Final(s, acts).closed && Final(s, acts).sent == s.sent
    decreases |acts|
  {
    if acts != [] {
      NoSendAfterClose(Apply(s, acts[0]), acts[1..]);
    }
  }

  /** Some Recv has returned nullopt. */
  ghost predicate Ended<T>(s: State<T>) {
    exists k :: 0 <= k < |s.returned| && s.returned[k].result.Nullopt?
  }

  /** A nullopt is final: after it nothing is ever sent or received again. */
  lemma EndIsFinal<T>(n: nat, buffer: seq<T>, acts: seq<Action<T>>, more: seq<Action<T>>)
    requires buffer != [] && ValidRun(Init(n, buffer), acts)
    requires Ended(Final(Init(n, buffer), acts)) && ValidRun(Final(Init(n, buffer), acts), more)
    ensures Final(Final(Init(n, buffer), acts), more).received == Final(Init(n, buffer), acts).received
    ensures Final(Final(Init(n, buffer), acts), more).sent == Final(Init(n, buffer), acts).sent
  {
    hide Ledger, CloseWakes, NoLostWakeup, Locking, Init, Apply;
    var s := Reached(n, buffer, acts);
    RunInv(s, more);
    NoSendAfterClose(s, more);
    var s' := Final(s, more);
    assert |s.received| == |s.sent| == |s'.sent|;
    EndedStays(s, more);
    assert Contents(s.ring) == [] && Contents(s'.ring) == [];
    assert s.received + [] == s.received && s'.received + [] == s'.received;
  }

  lemma {:induction false} EndedStays<T>(s: State<T>, acts: seq<Action<T>>)
    requires Inv(s) && Ended(s) && ValidRun(s, acts)
    ensures Ended(Final(s, acts))
    decreases |acts|
  {
    if acts != [] {
      StepInv(s, acts[0]);
      EndedStays(Apply(s, acts[0]), acts[1..]);
    }
  }

  /**
   No lost wakeup. While the channel is open, a sleeping receiver means that every buffered value is
   matched by a notification still owed or by a woken receiver, and a sleeping sender the same for
   every free slot; once it is closed, a sleeper means that the closer still owes its notify_all.
   */
  lemma SleepersAreCovered<T>(n: nat, buffer: seq<T>, acts: seq<Action<T>>)
    requires buffer != [] && ValidRun(Init(n, buffer), acts)
    ensures var s := Final(Init(n, buffer), acts);
            && (ReceiverAsleep(s) && !s.closed ==>
                  s.ring.size <= Sum(s.threads, OwesNotEmpty) + Sum(s.threads, WokenReceiver))
            && (SenderAsleep(s) && !s.closed ==>
                  |buffer| - s.ring.size <= Sum(s.threads, OwesNotFull) + Sum(s.threads, WokenSender))
            && (ReceiverAsleep(s) && s.closed ==> CloserAt(s, false))
            && (SenderAsleep(s) && s.closed ==> CloserAt(s, true))
  {
    var s := Reached(n, buffer, acts);
    CapacityFixed(Init(n, buffer), acts);
  }

  lemma {:induction false} CapacityFixed<T>(s: State<T>, acts: seq<Action<T>>)
    requires ValidRun(s, acts)
    ensures |Final(s, acts).ring.buffer| == |s.ring.buffer|
    decreases |acts|
  {
    if acts != [] {
      CapacityFixed(Apply(s, acts[0]), acts[1..]);
    }
  }

  lemma BufferFixed<T>(n: nat, buffer: seq<T>, acts: seq<Action<T>>)
    requires ValidRun(Init(n, buffer), acts)
    ensures |Final(Init(n, buffer), acts).ring.buffer| == |buffer|
  {
    CapacityFixed(Init(n, buffer), acts);
  }

  /** No thread inside a call can move except by waking for no reason. */
  ghost predicate Stuck<T>(s: State<T>) {
    forall i :: 0 <= i < |s.threads| ==> s.threads[i].Idle? || s.threads[i].SAsleep? || s.threads[i].RAsleep?
  }

  /**
   Threads can only be left waiting for a good reason: some thread inside a call can move, or nobody
   is inside one, or the channel is open and either empty with only receivers waiting or full with
   only senders waiting.
   */
  lemma NoDeadlock<T>(n: nat, buffer: seq<T>, acts: seq<Action<T>>)
    requires buffer != [] && ValidRun(Init(n, buffer), acts)
    ensures var s := Final(Init(n, buffer), acts);
            && Good(s.ring)
            && (!Stuck(s) ==> exists a: Action<T> :: Enabled(s, a) && !a.Begin? && !a.Spurious?)
            && (Stuck(s) && ReceiverAsleep(s) ==> !s.closed && Contents(s.ring) == [] && !SenderAsleep(s))
            && (Stuck(s) && SenderAsleep(s) ==> !s.closed && |Contents(s.ring)| == |buffer| && !ReceiverAsleep(s))
  {
    hide Apply, Init, Sum, Ledger, Returns;
    var s := Reached(n, buffer, acts);
    BufferFixed(n, buffer, acts);
    if Stuck(s) {
      SumPositive(s.threads, OwesNotEmpty);
      SumPositive(s.threads, OwesNotFull);
      SumPositive(s.threads, WokenReceiver);
      SumPositive(s.threads, WokenSender);
    } else {
      var a := Mover(s);
    }
  }

  lemma Mover<T>(s: State<T>) returns (a: Action<T>)
    requires Inv(s) && !Stuck(s)
    ensures Enabled(s, a) && !a.Begin? && !a.Spurious?
  {
    var i :| 0 <= i < |s.threads| && !(s.threads[i].Idle? || s.threads[i].SAsleep? || s.threads[i].RAsleep?);
    var pc := s.threads[i];
    if pc.SEnter? || pc.REnter? || pc.CEnter? {
      if s.holder == None {
        a := Acquire(i);
      } else {
        var h := s.holder.value;
        a := if s.threads[h].SUnlock? || s.threads[h].RUnlock? || s.threads[h].CUnlock? then Unlock(h) else Check(h);
      }
    } else if Holds(pc) {
      a := if pc.SUnlock? || pc.RUnlock? || pc.CUnlock? then Unlock(i) else Check(i);
    } else if pc.SNotify? {
      if j :| 0 <= j < |s.threads| && s.threads[j].RAsleep? { a := NotifyOne(i, j); } else { a := NotifyNobody(i); }
    } else if pc.RNotify? {
      if j :| 0 <= j < |s.threads| && s.threads[j].SAsleep? { a := NotifyOne(i, j); } else { a := NotifyNobody(i); }
    } else {
      a := NotifyAll(i);
    }
  }
}
