/**
 The lock-free byte ring as a state machine: any number of producers and one consumer, one step per
 atomic access and per byte copied.

 Positions are unbounded; memory is sequentially consistent. `log`, `stream`, `committed`,
 `consumed`, `delivered` and `sent` are history: they record reservations, the bytes they stand for
 and what happened to them, and no step depends on them.
 */
module RingMachine {
  import opened Bytes
  import opened RingRecords

  datatype Pc =
    | Idle
    | Loop(m: Message)                                      // about to load readPos
    | GotRead(m: Message, read: nat)                        // about to load reservePos
    | GotBoth(m: Message, read: nat, reserve: nat)          // about to test and compare-exchange
    | Writing(m: Message, begin: nat, pad: nat, done: nat, ticket: nat)  // owns its range, copied up to `done`

  datatype Producer = Producer(pc: Pc, sent: seq<Message>)

  datatype Consumer =
    | CIdle
    | CLoop(skips: nat)                                     // about to load readPos, after `skips` jumps
    | CGotRead(read: nat, skips: nat)                       // about to load commitPos
    | CHeader(read: nat, commit: nat, got: seq<byte>, skips: nat)
    | CBody(read: nat, next: nat, typ: nat, size: nat, body: seq<byte>)

  /** The n-th successful reservation. */
  datatype Reservation = Reservation(p: nat, m: Message, begin: nat, pad: nat)

  datatype State = State(
    buf: seq<byte>, reservePos: nat, commitPos: nat, readPos: nat,
    producers: seq<Producer>, consumer: Consumer, interested: nat,
    log: seq<Reservation>, stream: seq<byte>, committed: nat, consumed: nat, delivered: seq<Message>)

  datatype Action =
    | Begin(p: nat, m: Message)
    | LoadRead(p: nat)
    | LoadReserve(p: nat)
    | Refuse(p: nat)          // TrySend returns false
    | Retry(p: nat)           // the compare-exchange on reservePos fails, possibly spuriously
    | Reserve(p: nat)
    | WriteByte(p: nat)
    | Publish(p: nat)         // the compare-exchange on commitPos succeeds, TrySend returns true
    | CBegin
    | CLoadRead
    | CLoadCommit
    | CShortTail              // jumps over a tail too short for a header
    | CReadHeader
    | CParse
    | CReadBody
    | CFinish

  // ---------- Steps ----------

  function Required(m: Message, reserve: nat, capacity: nat): nat
    requires capacity > 0
  {
    PaddingFor(reserve, SizeOf(m), capacity) + SizeOf(m)
  }

  /** The bytes of a reservation: padding, then the message record. */
  function Content(m: Message, pad: nat): (bytes: seq<byte>)
    ensures |bytes| >= pad
  {
    (if pad == 0 || pad >= HEADER then PaddingBytes(pad) else Zeros(pad)) +
    (if ValidMessage(m) then RecordBytes(m) else [])
  }

  /** A gap too short for a header is not written. */
  function FirstWritten(pad: nat): nat {
    if pad < HEADER then pad else 0
  }

  /** The n cells from address a on. */
  function Gap(buf: seq<byte>, a: nat, n: nat): (cells: seq<byte>)
    ensures |cells| == n
  {
    seq<byte>(n, k requires 0 <= k < n => Fetch(buf, a + k))
  }

  /** What the cells of a new reservation will hold: what is there in a gap that is not written, then what is written. */
  function Reserved(buf: seq<byte>, begin: nat, m: Message, pad: nat): seq<byte>
    requires |buf| > 0
  {
    Gap(buf, begin % |buf|, FirstWritten(pad)) + Content(m, pad)[FirstWritten(pad)..]
  }

  /** The address of the k-th byte of a reservation, as the source computes it. */
  function Address(begin: nat, pad: nat, k: nat, capacity: nat): nat
    requires capacity > 0
  {
    if k < pad then begin % capacity + k else (begin + pad) % capacity + (k - pad)
  }

  function Store(buf: seq<byte>, a: nat, v: byte): (b: seq<byte>)
    ensures |b| == |buf|
  {
    if a < |buf| then buf[a := v] else buf
  }

  function Fetch(buf: seq<byte>, a: nat): byte {
    if a < |buf| then buf[a] else 0
  }

  predicate Wanted(typ: nat, interested: nat) {
    interested == ALL || typ == interested || typ == STOP_MESSAGE
  }

  predicate PEnabled(s: State, a: Action, p: nat) {
    && p < |s.producers| && |s.buf| > 0
    && var pc := s.producers[p].pc;
       match a
       case Begin(_, m) => pc.Idle? && ValidMessage(m) && SizeOf(m) <= |s.buf|
       case LoadRead(_) => pc.Loop?
       case LoadReserve(_) => pc.GotRead?
       case Refuse(_) => pc.GotBoth? && !Admits(|s.buf|, pc.read, pc.reserve, Required(pc.m, pc.reserve, |s.buf|))
       case Retry(_) => pc.GotBoth? && Admits(|s.buf|, pc.read, pc.reserve, Required(pc.m, pc.reserve, |s.buf|))
       case Reserve(_) =>
         && pc.GotBoth? && Admits(|s.buf|, pc.read, pc.reserve, Required(pc.m, pc.reserve, |s.buf|))
         && s.reservePos == pc.reserve
       case WriteByte(_) => pc.Writing? && pc.done < |Content(pc.m, pc.pad)|
       case Publish(_) => pc.Writing? && pc.done == |Content(pc.m, pc.pad)| && s.commitPos == pc.begin
       case _ => false
  }

  predicate CEnabled(s: State, a: Action) {
    && |s.buf| > 0
    && match a
       case CBegin => s.consumer.CIdle?
       case CLoadRead => s.consumer.CLoop?
       case CLoadCommit => s.consumer.CGotRead?
       case CShortTail => s.consumer.CHeader? && |s.buf| - s.consumer.read % |s.buf| < HEADER
       case CReadHeader =>
         s.consumer.CHeader? && |s.buf| - s.consumer.read % |s.buf| >= HEADER && |s.consumer.got| < HEADER
       case CParse => s.consumer.CHeader? && |s.consumer.got| == HEADER
       case CReadBody =>
         s.consumer.CBody? && Wanted(s.consumer.typ, s.interested) && |s.consumer.body| < s.consumer.size
       case CFinish =>
         s.consumer.CBody? && (!Wanted(s.consumer.typ, s.interested) || |s.consumer.body| == s.consumer.size)
       case _ => false
  }

  predicate ByProducer(a: Action) {
    a.Begin? || a.LoadRead? || a.LoadReserve? || a.Refuse? || a.Retry? || a.Reserve? || a.WriteByte? || a.Publish?
  }

  predicate Enabled(s: State, a: Action) {
    if ByProducer(a) then PEnabled(s, a, a.p) else CEnabled(s, a)
  }

  function Go(s: State, p: nat, pc: Pc): State
    requires p < |s.producers|
  {
    s.(producers := s.producers[p := s.producers[p].(pc := pc)])
  }

  function ApplyReserve(s: State, p: nat): State
    requires PEnabled(s, Reserve(p), p)
  {
    var pc := s.producers[p].pc;
    var pad := PaddingFor(pc.reserve, SizeOf(pc.m), |s.buf|);
    Go(s, p, Writing(pc.m, pc.reserve, pad, FirstWritten(pad), |s.log|)).(
      reservePos := pc.reserve + pad + SizeOf(pc.m),
      log := s.log + [Reservation(p, pc.m, pc.reserve, pad)],
      stream := s.stream + Reserved(s.buf, pc.reserve, pc.m, pad))
  }

  function ApplyWrite(s: State, p: nat): State
    requires PEnabled(s, WriteByte(p), p)
  {
    var pc := s.producers[p].pc;
    Go(s, p, pc.(done := pc.done + 1)).(
      buf := Store(s.buf, Address(pc.begin, pc.pad, pc.done, |s.buf|), Content(pc.m, pc.pad)[pc.done]))
  }

  function ApplyPublish(s: State, p: nat): State
    requires PEnabled(s, Publish(p), p)
  {
    var pc := s.producers[p].pc;
    s.(producers := s.producers[p := Producer(Idle, s.producers[p].sent + [pc.m])],
       commitPos := pc.begin + pc.pad + SizeOf(pc.m),
       committed := s.committed + 1)
  }

  function ApplyParse(s: State): State
    requires CEnabled(s, CParse)
  {
    var c := s.consumer;
    var typ, size := TypeIn(c.got), SizeIn(c.got);
    var next := c.read + MessageSize(size);
    if next > c.commit then s.(consumer := CIdle)
    else if typ == PADDING then s.(readPos := next, consumer := CLoop(c.skips + 1))
    else s.(consumer := CBody(c.read, next, typ, size, []))
  }

  function ApplyFinish(s: State): State
    requires CEnabled(s, CFinish)
  {
    var c := s.consumer;
    s.(readPos := c.next, consumer := CIdle, consumed := s.consumed + 1,
       delivered := if Wanted(c.typ, s.interested) then s.delivered + [Message(c.typ, c.body)] else s.delivered)
  }

  function Apply(s: State, a: Action): State
    requires Enabled(s, a)
  {
    match a
    case Begin(p, m) => Go(s, p, Loop(m))
    case LoadRead(p) => Go(s, p, GotRead(s.producers[p].pc.m, s.readPos))
    case LoadReserve(p) => Go(s, p, GotBoth(s.producers[p].pc.m, s.producers[p].pc.read, s.reservePos))
    case Refuse(p) => Go(s, p, Idle)
    case Retry(p) => Go(s, p, Loop(s.producers[p].pc.m))
    case Reserve(p) => ApplyReserve(s, p)
    case WriteByte(p) => ApplyWrite(s, p)
    case Publish(p) => ApplyPublish(s, p)
    case CBegin => s.(consumer := CLoop(0))
    case CLoadRead => s.(consumer := CGotRead(s.readPos, s.consumer.skips))
    case CLoadCommit =>
      s.(consumer := if s.consumer.read == s.commitPos then CIdle
                     else CHeader(s.consumer.read, s.commitPos, [], s.consumer.skips))
    case CShortTail =>
      s.(readPos := s.consumer.read + (|s.buf| - s.consumer.read % |s.buf|), consumer := CLoop(s.consumer.skips + 1))
    case CReadHeader =>
      s.(consumer := s.consumer.(got := s.consumer.got +
           [Fetch(s.buf, s.consumer.read % |s.buf| + |s.consumer.got|)]))
    case CParse => ApplyParse(s)
    case CReadBody =>
      s.(consumer := s.consumer.(body := s.consumer.body +
           [Fetch(s.buf, s.consumer.read % |s.buf| + HEADER + |s.consumer.body|)]))
    case CFinish => ApplyFinish(s)
  }

  // ---------- Runs ----------

  function Init(n: nat, buf: seq<byte>, interested: nat): State {
    State(buf, 0, 0, 0, seq(n, _ => Producer(Idle, [])), CIdle, interested, [], [], 0, 0, [])
  }

  predicate ValidRun(s: State, acts: seq<Action>)
    decreases |acts|
  {
    acts == [] || (Enabled(s, acts[0]) && ValidRun(Apply(s, acts[0]), acts[1..]))
  }

  function Final(s: State, acts: seq<Action>): State
    requires ValidRun(s, acts)
    decreases |acts|
  {
    if acts == [] then s else Final(Apply(s, acts[0]), acts[1..])
  }

  /**
   The condition on a successful compare-exchange of the reserve position: the range it reserves ends
   at most one capacity behind the read position, as that is now. The source tests this only against
   the read position it loaded before.
   */
  predicate FitOk(s: State, a: Action)
    requires Enabled(s, a)
  {
    a.Reserve? ==>
      var pc := s.producers[a.p].pc;
      pc.reserve + Required(pc.m, pc.reserve, |s.buf|) <= s.readPos + |s.buf|
  }

  /** Every reservation of a run fits. */
  predicate ReservesFit(s: State, acts: seq<Action>)
    requires ValidRun(s, acts)
    decreases |acts|
  {
    acts == [] || (FitOk(s, acts[0]) && ReservesFit(Apply(s, acts[0]), acts[1..]))
  }

  /** The padding record being parsed is skipped exactly. */
  predicate SkipOk(s: State, a: Action) {
    a.CParse? && s.consumed < |s.log| && s.readPos == s.log[s.consumed].begin ==> Skippable(s.log[s.consumed].pad)
  }

  predicate StepOk(s: State, a: Action)
    requires Enabled(s, a)
  {
    FitOk(s, a) && SkipOk(s, a)
  }

  predicate StepsOk(s: State, acts: seq<Action>)
    requires ValidRun(s, acts)
    decreases |acts|
  {
    acts == [] || (StepOk(s, acts[0]) && StepsOk(Apply(s, acts[0]), acts[1..]))
  }

  /**
   The snapshot hypothesis at one step: the reserve position being loaded is at most the capacity
   ahead of the read position loaded just before. The source does not check it.
   */
  predicate SnapshotOk(s: State, a: Action)
    requires Enabled(s, a)
  {
    a.LoadReserve? ==> s.reservePos <= s.producers[a.p].pc.read + |s.buf|
  }

  predicate SnapshotsOk(s: State, acts: seq<Action>)
    requires ValidRun(s, acts)
    decreases |acts|
  {
    acts == [] || (SnapshotOk(s, acts[0]) && SnapshotsOk(Apply(s, acts[0]), acts[1..]))
  }

  lemma {:induction false} RunConcat(s: State, a: seq<Action>, b: seq<Action>)
    requires ValidRun(s, a) && ValidRun(Final(s, a), b)
    ensures ValidRun(s, a + b) && Final(s, a + b) == Final(Final(s, a), b)
    ensures StepsOk(s, a) && StepsOk(Final(s, a), b) ==> StepsOk(s, a + b)
    ensures ReservesFit(s, a) && ReservesFit(Final(s, a), b) ==> ReservesFit(s, a + b)
    decreases |a|
  {
    if a == [] {
      assert a + b == b;
    } else {
      assert (a + b)[0] == a[0] && (a + b)[1..] == a[1..] + b;
      RunConcat(Apply(s, a[0]), a[1..], b);
    }
  }
}
