/**
 The limits of the byte ring: which messages an empty queue admits, and when Send waits forever.
 */
module RingBounds {
  import opened Bytes
  import opened RingRecords
  import opened RingMachine
  import opened RingSafety
  import opened RingConsumer
  import opened RingTheorems
  import opened RingRuns

  // ---------- What an empty queue admits ----------

  /** The free-space test of TrySend on an empty queue whose positions are all `pos`. */
  predicate Admitted(capacity: nat, pos: nat, size: nat)
    requires capacity > 0
  {
    Admits(capacity, pos, pos, PaddingFor(pos, size, capacity) + size)
  }

  lemma AdmittedExactly(capacity: nat, pos: nat, size: nat)
    requires 0 < capacity < WORD64 && pos % capacity % 8 == 0
    requires size % 8 == 0 && HEADER <= size <= capacity && size < WORD32
    ensures Admitted(capacity, pos, size) <==>
              capacity - pos % capacity >= size || capacity - pos % capacity + size <= capacity
  {
    hide AlignUp, PaddingFor, Admits;
    Placement(pos, size, capacity);
    AdmitsWithin(capacity, pos, pos, PaddingFor(pos, size, capacity) + size);
  }

  lemma TailOrHead(r: nat, size: nat, capacity: nat)
    requires r < capacity && r % 8 == 0 && size % 8 == 0 && 2 * size - 8 <= capacity
    ensures capacity - r >= size || capacity - r + size <= capacity
  {
    var a, b := r / 8, size / 8;
    assert r == 8 * a && size == 8 * b;
    if r < size {
      assert a <= b - 1;
    }
  }

  /** An empty queue admits a record at every position if and only if twice its size is at most the capacity plus 8. */
  lemma EmptyQueueAdmits(capacity: nat, size: nat)
    requires 0 < capacity < WORD64
    requires size % 8 == 0 && HEADER <= size <= capacity && size < WORD32
    ensures (forall pos: nat :: pos % capacity % 8 == 0 ==> Admitted(capacity, pos, size)) <==> 2 * size - 8 <= capacity
  {
    hide Admitted, Admits, PaddingFor;
    if 2 * size - 8 <= capacity {
      forall pos: nat | pos % capacity % 8 == 0
        ensures Admitted(capacity, pos, size)
      {
        AdmittedExactly(capacity, pos, size);
        TailOrHead(pos % capacity, size, capacity);
      }
    } else {
      BadPosition(capacity, size);
    }
  }

  /** At this position neither the tail nor what lies before it holds the record. */
  lemma BadPosition(capacity: nat, size: nat)
    requires 0 < capacity < WORD64
    requires size % 8 == 0 && HEADER <= size <= capacity && size < WORD32 && capacity < 2 * size - 8
    ensures (size - 8) % 8 == 0 && (size - 8) % capacity == size - 8 && !Admitted(capacity, size - 8, size)
  {
    hide Admitted, Admits, PaddingFor;
    assert size == 8 * (size / 8);
    SmallRest(size - 8, capacity);
    AdmittedExactly(capacity, size - 8, size);
  }

  // ---------- Quiet states and how to reach them ----------

  ghost predicate Quiet(s: State) {
    && Inv(s) && s.consumer.CIdle?
    && (forall p :: 0 <= p < |s.producers| ==> s.producers[p].pc.Idle?)
    && s.consumed == s.committed == |s.log| && s.readPos == s.commitPos == s.reservePos
  }

  /** An empty record needs no padding where a header fits. */
  lemma EmptyRecordFits(pos: nat, capacity: nat)
    requires capacity > 0 && pos % capacity + HEADER <= capacity
    ensures MessageSize(0) == HEADER && PaddingFor(pos, HEADER, capacity) == 0
  {
    hide AlignUp;
    assert MessageSize(0) == HEADER by { SizeCoversPayload(0); }
  }

  /** Sending and receiving one empty message moves a quiet queue on by 8. */
  lemma RoundTrip(s: State) returns (acts: seq<Action>, t: State)
    requires Quiet(s) && |s.producers| > 0 && |s.buf| > 0 && s.reservePos % |s.buf| + HEADER <= |s.buf|
    ensures Leads(s, acts, t) && Quiet(t)
    ensures t.reservePos == s.reservePos + 8 && |t.buf| == |s.buf| && |t.producers| == |s.producers|
  {
    hide AlignUp, PaddingFor, Content, Tiled, Owners, Bytewise, Snapshots, Histories, Outside, MessageSize;
    var m := Message(1, []);
    EmptyRecordFits(s.reservePos, |s.buf|);
    var sent, more;
    acts, sent := SendTrip(s, 0, m);
    more, t := ReceiveTrip(sent);
    LeadsThen(s, acts, sent, more, t);
    acts := acts + more;
  }

  lemma {:induction false} ReachPosition(s: State, k: nat) returns (acts: seq<Action>, t: State)
    requires Quiet(s) && |s.producers| > 0 && |s.buf| > 0
    requires forall j :: 0 <= j < k ==> (s.reservePos + 8 * j) % |s.buf| + HEADER <= |s.buf|
    ensures Leads(s, acts, t) && Quiet(t)
    ensures t.reservePos == s.reservePos + 8 * k && |t.buf| == |s.buf| && |t.producers| == |s.producers|
    decreases k
  {
    hide Quiet;
    if k == 0 {
      acts, t := [], s;
      assert ValidRun(s, acts) && Final(s, acts) == s && StepsOk(s, acts);
    } else {
      var mid, rest;
      assert (s.reservePos + 8 * 0) % |s.buf| + HEADER <= |s.buf|;
      acts, mid := RoundTrip(s);
      forall j | 0 <= j < k - 1
        ensures (mid.reservePos + 8 * j) % |mid.buf| + HEADER <= |mid.buf|
      {
        assert mid.reservePos + 8 * j == s.reservePos + 8 * (j + 1);
      }
      rest, t := ReachPosition(mid, k - 1);
      LeadsThen(s, acts, mid, rest, t);
      acts := acts + rest;
    }
  }

  // ---------- Waiting forever ----------

  /** An empty queue in which every send under way is of a size that is refused at this position. */
  ghost predicate Starved(s: State, size: nat) {
    && |s.buf| > 0 && s.readPos == s.commitPos == s.reservePos && !Admitted(|s.buf|, s.readPos, size)
    && (match s.consumer
        case CIdle => true
        case CLoop(_) => true
        case CGotRead(read, _) => read == s.readPos
        case _ => false)
    && forall p :: 0 <= p < |s.producers| ==> StarvedAt(s, s.producers[p].pc, size)
  }

  ghost predicate StarvedAt(s: State, pc: Pc, size: nat) {
    match pc
    case Idle => true
    case Loop(m) => SizeOf(m) == size
    case GotRead(m, read) => SizeOf(m) == size && read == s.readPos
    case GotBoth(m, read, reserve) => SizeOf(m) == size && read == s.readPos && reserve == s.readPos
    case _ => false
  }

  predicate OnlySize(acts: seq<Action>, size: nat) {
    forall i :: 0 <= i < |acts| && acts[i].Begin? ==> SizeOf(acts[i].m) == size
  }

  lemma StarvedStep(s: State, a: Action, size: nat)
    requires Starved(s, size) && Enabled(s, a) && (a.Begin? ==> SizeOf(a.m) == size)
    ensures Starved(Apply(s, a), size) && Apply(s, a).reservePos == s.reservePos && !a.Reserve?
  {
    hide AlignUp, PaddingFor, Content, Admits, MessageSize;
    if ByProducer(a) {
      assert StarvedAt(s, s.producers[a.p].pc, size);
      assert !Enabled(s, Reserve(a.p));
    }
  }

  /** While only messages of that size are sent, none is ever admitted: Send waits forever. */
  lemma {:induction false} StarvedForever(s: State, acts: seq<Action>, size: nat)
    requires Starved(s, size) && ValidRun(s, acts) && OnlySize(acts, size)
    ensures Reserves(acts) == 0 && Starved(Final(s, acts), size) && Final(s, acts).reservePos == s.reservePos
    decreases |acts|
  {
    if acts != [] {
      StarvedStep(s, acts[0], size);
      hide Starved, Apply, Enabled;
      assert OnlySize(acts[1..], size);
      StarvedForever(Apply(s, acts[0]), acts[1..], size);
    }
  }

  /**
   For every record larger than the bound there is a run of the queue, with its reservations fitting,
   to an empty state from which a sender of such records waits forever.
   */
  lemma TooLargeStarves(n: nat, buf: seq<byte>, interested: nat, m: Message) returns (acts: seq<Action>)
    requires n > 0 && 0 < |buf| < WORD64
    requires ValidMessage(m) && SizeOf(m) <= |buf| < 2 * SizeOf(m) - 8
    ensures ValidRun(Init(n, buf, interested), acts) && ReservesFit(Init(n, buf, interested), acts)
    ensures Starved(Final(Init(n, buf, interested), acts), SizeOf(m))
  {
    hide Inv, SizeOf, Starved, Quiet;
    var s := Init(n, buf, interested);
    InitQuiet(n, buf, interested);
    RoundedSize(m);
    var t;
    acts, t := StarvingRun(s, SizeOf(m));
    LeadsFit(s, acts);
  }

  lemma InitQuiet(n: nat, buf: seq<byte>, interested: nat)
    requires n > 0 && 0 < |buf| < WORD64
    ensures Quiet(Init(n, buf, interested))
  {
    InitInv(n, buf, interested);
  }

  lemma StarvingRun(s: State, size: nat) returns (acts: seq<Action>, t: State)
    requires Quiet(s) && s.reservePos == 0 && |s.producers| > 0 && 0 < |s.buf| < WORD64
    requires size % 8 == 0 && HEADER <= size < WORD32 && size <= |s.buf| < 2 * size - 8
    ensures Leads(s, acts, t) && Starved(t, size)
  {
    hide Quiet, Inv, Leads, Admitted, Starved;
    BadPosition(|s.buf|, size);
    var k := (size - 8) / 8;
    assert size - 8 == 8 * k;
    forall j | 0 <= j < k
      ensures (s.reservePos + 8 * j) % |s.buf| + HEADER <= |s.buf|
    {
      SmallRest(8 * j, |s.buf|);
    }
    acts, t := ReachPosition(s, k);
    QuietStarves(t, size);
  }

  lemma RoundedSize(m: Message)
    requires ValidMessage(m)
    ensures SizeOf(m) % 8 == 0 && HEADER <= SizeOf(m) < WORD32
  {
    hide MessageSize;
    SizeCoversPayload(|m.payload|);
  }

  lemma QuietStarves(s: State, size: nat)
    requires Quiet(s) && |s.buf| > 0 && !Admitted(|s.buf|, s.reservePos, size)
    ensures Starved(s, size)
  {
    hide AlignUp, PaddingFor, Content, Admits, MessageSize, Tile, Owners, Bytewise, Snapshots, Histories, Admitted, Reading;
  }
}
