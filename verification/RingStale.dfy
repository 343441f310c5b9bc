/**
 Old snapshots: with a second producer, and any buffer that holds a record at all, a producer can test
 for space with a read position so old that the test wraps around. It may do no harm; it may also
 overwrite a message that nobody has read.
 */
module RingStale {
  import opened Bytes
  import opened RingRecords
  import opened RingMachine
  import opened RingSafety
  import opened RingConsumer
  import opened RingTheorems
  import opened RingRuns
  import opened RingBounds

  const TEXT: Message := Message(1, [])
  const NUMBER: Message := Message(2, [])

  lemma EmptySize()
    ensures SizeOf(TEXT) == SizeOf(NUMBER) == HEADER
  {
    hide AlignUp;
    SizeCoversPayload(0);
  }

  /** The gap in front of an empty record. */
  function GapAt(pos: nat, capacity: nat): nat
    requires capacity > 0
  {
    PaddingFor(pos, HEADER, capacity)
  }

  /** Up to the capacity, and 8 beyond it, empty records are placed without a header in front. */
  lemma GapBefore(pos: nat, capacity: nat)
    requires 8 <= pos <= capacity && pos % 8 == 0
    ensures var gap := GapAt(pos, capacity);
            gap < HEADER && (if pos + 8 <= capacity || pos == capacity then gap == 0 else pos + gap == capacity)
  {
    if pos < capacity { SmallRest(pos, capacity); }
  }

  /** One capacity later the gap is the same. */
  lemma GapAgain(capacity: nat)
    requires capacity >= 8
    ensures GapAt(capacity + 8, capacity) == GapAt(8, capacity) < HEADER
    ensures GapAt(8, capacity) + 8 <= capacity
    ensures (capacity + 8 + GapAt(8, capacity)) % capacity == (8 + GapAt(8, capacity)) % capacity
  {
    GapBefore(8, capacity);
    OneAround(8, capacity);
    OneAround(8 + GapAt(8, capacity), capacity);
  }

  lemma OneAround(x: nat, capacity: nat)
    requires capacity > 0
    ensures (capacity + x) % capacity == x % capacity
  {
    DivModUnique(capacity + x, capacity, x / capacity + 1, x % capacity);
  }

  /** What the runs keep in view: nothing in flight, producer 1 idle, producer 0 holding the read position 0. */
  ghost predicate Holding(s: State) {
    && Inv(s) && HEADER <= |s.buf| < WORD64 && |s.producers| >= 2 && s.consumer.CIdle?
    && s.producers[0].pc == GotRead(NUMBER, 0) && s.producers[1].pc.Idle?
    && s.committed == |s.log| && s.consumed <= s.committed
    && forall i :: 0 <= i < |s.log| ==> s.log[i].pad < HEADER && s.log[i].m == TEXT
  }

  lemma Start(n: nat, buf: seq<byte>, interested: nat) returns (acts: seq<Action>, t: State)
    requires n >= 2 && HEADER <= |buf| < WORD64
    ensures Leads(Init(n, buf, interested), acts, t) && Holding(t)
    ensures t.log == [] && t.reservePos == t.readPos == t.consumed == 0 && t.buf == buf
  {
    hide AlignUp, PaddingFor, Content, MessageSize, Owners, Bytewise, Snapshots, Histories;
    InitInv(n, buf, interested);
    EmptySize();
    var s := Init(n, buf, interested);
    LeadsOne(s, Begin(0, NUMBER));
    StepInv(s, Begin(0, NUMBER));
    var mid := Apply(s, Begin(0, NUMBER));
    LeadsStep(s, [Begin(0, NUMBER)], mid, LoadRead(0));
    StepInv(mid, LoadRead(0));
    acts, t := [Begin(0, NUMBER)] + [LoadRead(0)], Apply(mid, LoadRead(0));
  }

  lemma SendText(s: State) returns (acts: seq<Action>, t: State)
    requires Holding(s) && GapAt(s.reservePos, |s.buf|) < HEADER
    requires s.reservePos + GapAt(s.reservePos, |s.buf|) + 8 <= s.readPos + |s.buf|
    ensures Leads(s, acts, t) && Holding(t) && |t.buf| == |s.buf|
    ensures t.readPos == s.readPos && t.consumed == s.consumed
    ensures t.reservePos == s.reservePos + GapAt(s.reservePos, |s.buf|) + 8
    ensures t.log == s.log + [Reservation(1, TEXT, s.reservePos, GapAt(s.reservePos, |s.buf|))]
  {
    hide AlignUp, PaddingFor, Content, Inv, Outside, MessageSize, SizeOf;
    EmptySize();
    acts, t := SendTrip(s, 1, TEXT);
  }

  lemma ReceiveText(s: State) returns (acts: seq<Action>, t: State)
    requires Holding(s) && s.consumed < s.committed
    ensures Leads(s, acts, t) && Holding(t) && |t.buf| == |s.buf|
    ensures t.log == s.log && t.reservePos == s.reservePos && t.consumed == s.consumed + 1
    ensures t.readPos == End(s.log[s.consumed])
  {
    hide AlignUp, PaddingFor, Content, Inv, MessageSize, SizeOf;
    acts, t := ReceiveTrip(s);
  }

  /** One message has been sent and received, and of those behind it the first is where it must be. */
  ghost predicate Behind(s: State) {
    && Holding(s) && s.readPos == 8 && s.consumed == 1 && |s.log| >= 1
    && (|s.log| == 1 ==> s.reservePos == 8)
    && (|s.log| > 1 ==> s.log[1] == Reservation(1, TEXT, 8, GapAt(8, |s.buf|)))
  }

  lemma FirstAway(n: nat, buf: seq<byte>, interested: nat) returns (acts: seq<Action>, t: State)
    requires n >= 2 && HEADER <= |buf| < WORD64
    ensures Leads(Init(n, buf, interested), acts, t) && Behind(t) && t.reservePos == 8 && |t.buf| == |buf|
  {
    hide Leads, Holding, SizeOf;
    EmptySize();
    var s, more, u := Init(n, buf, interested), [], Init(n, buf, interested);
    acts, t := Start(n, buf, interested);
    assert GapAt(0, |buf|) == 0;
    more, u := SendText(t);
    LeadsThen(s, acts, t, more, u);
    acts, t := acts + more, u;
    assert t.committed > 0 by { CommittedAll(t); }
    more, u := ReceiveText(t);
    LeadsThen(s, acts, t, more, u);
    acts, t := acts + more, u;
  }

  lemma CommittedAll(s: State)
    requires Holding(s)
    ensures s.committed == |s.log| && |s.producers| >= 2 && HEADER <= |s.buf| < WORD64
  {
    hide Inv;
  }

  /** Empty messages fill the buffer to exactly one capacity behind the read position. */
  lemma {:induction false} Fill(s: State) returns (acts: seq<Action>, t: State)
    requires Behind(s) && (s.reservePos == |s.buf| + 8 || (8 <= s.reservePos <= |s.buf| && s.reservePos % 8 == 0))
    ensures Leads(s, acts, t) && Behind(t) && t.reservePos == |s.buf| + 8 && |t.buf| == |s.buf|
    decreases |s.buf| + 8 - s.reservePos
  {
    hide Leads, Holding, GapAt;
    if s.reservePos == |s.buf| + 8 {
      acts, t := [], s;
      LeadsNowhere(s);
    } else {
      GapBefore(s.reservePos, |s.buf|);
      CommittedAll(s);
      var mid, rest;
      acts, mid := SendText(s);
      rest, t := Fill(mid);
      LeadsThen(s, acts, mid, rest, t);
      acts := acts + rest;
    }
  }

  /** The queue filled behind a producer that still holds the read position 0. */
  lemma Filled(n: nat, buf: seq<byte>, interested: nat) returns (acts: seq<Action>, t: State)
    requires n >= 2 && HEADER <= |buf| < WORD64
    ensures Leads(Init(n, buf, interested), acts, t) && Behind(t) && t.reservePos == |buf| + 8 && |t.buf| == |buf|
  {
    hide Leads, Behind;
    var mid, more;
    acts, mid := FirstAway(n, buf, interested);
    more, t := Fill(mid);
    LeadsThen(Init(n, buf, interested), acts, mid, more, t);
    acts := acts + more;
  }

  lemma {:induction false} ReceiveAll(s: State) returns (acts: seq<Action>, t: State)
    requires Holding(s)
    ensures Leads(s, acts, t) && Holding(t) && |t.buf| == |s.buf|
    ensures t.reservePos == t.readPos == s.reservePos
    decreases |s.log| - s.consumed
  {
    hide Leads, Holding;
    CommittedAll(s);
    AllReceived(s);
    if s.consumed >= s.committed {
      acts, t := [], s;
      LeadsNowhere(s);
    } else {
      var mid, rest;
      acts, mid := ReceiveText(s);
      rest, t := ReceiveAll(mid);
      LeadsThen(s, acts, mid, rest, t);
      acts := acts + rest;
    }
  }

  lemma AllReceived(s: State)
    requires Holding(s)
    ensures s.consumed <= |s.log| && (s.consumed == |s.log| ==> s.readPos == s.reservePos)
  {
    hide AlignUp, PaddingFor, Content, Owners, Bytewise, Snapshots, Histories, Reading, Tile;
  }

  // ---------- The stale test ----------

  /** One capacity and 8 ahead of the loaded read position the free space wraps around, and anything is admitted. */
  lemma StaleAdmits(capacity: nat, required: nat)
    requires 8 <= capacity < WORD64 && required <= 16
    ensures Admits(capacity, 0, capacity + 8, required)
  {
    if capacity + 8 < WORD64 {
      SmallRest(capacity + 8, WORD64);
      assert (-8) % WORD64 == WORD64 - 8;
    } else {
      assert (capacity + 8) % WORD64 == capacity + 8 - WORD64;
    }
  }

  /** Producer 0 loads the reserve position, and its reservation succeeds; it fits if all has been read meanwhile. */
  lemma StaleReserve(s: State) returns (acts: seq<Action>, t: State)
    requires Holding(s) && s.reservePos == |s.buf| + 8
    ensures ValidRun(s, acts) && Final(s, acts) == t && !SnapshotsOk(s, acts)
    ensures ReservesFit(s, acts) <==> s.reservePos + GapAt(8, |s.buf|) + 8 <= s.readPos + |s.buf|
    ensures t == Go(s, 0, Writing(NUMBER, s.reservePos, GapAt(8, |s.buf|), GapAt(8, |s.buf|), |s.log|)).(
                   reservePos := s.reservePos + GapAt(8, |s.buf|) + 8,
                   log := s.log + [Reservation(0, NUMBER, s.reservePos, GapAt(8, |s.buf|))], stream := t.stream)
  {
    hide AlignUp, MessageSize, Inv, Content, PaddingFor, Reserved, Admits, SizeOf;
    EmptySize();
    var cap := |s.buf|;
    GapAgain(cap);
    StaleAdmits(cap, GapAt(8, cap) + 8);
    var s1 := Apply(s, LoadReserve(0));
    assert s1.producers[0].pc == GotBoth(NUMBER, 0, cap + 8);
    t := Apply(s1, Reserve(0));
    acts := [LoadReserve(0), Reserve(0)];
    assert acts[1..] == [Reserve(0)] && acts[1..][1..] == [];
    assert ValidRun(t, []) && Final(t, []) == t && ReservesFit(t, []);
    assert ValidRun(s1, acts[1..]) && Final(s1, acts[1..]) == t;
    assert ReservesFit(s1, acts[1..]) <==> FitOk(s1, Reserve(0));
    assert ReservesFit(s, acts) <==> ReservesFit(s1, acts[1..]);
    assert t.producers == s.producers[0 := t.producers[0]];
  }

  lemma {:induction false} Split(s: State, a: seq<Action>, b: seq<Action>)
    requires ValidRun(s, a) && ValidRun(Final(s, a), b) && ValidRun(s, a + b)
    ensures SnapshotsOk(s, a + b) ==> SnapshotsOk(Final(s, a), b)
    ensures ReservesFit(s, a + b) ==> ReservesFit(Final(s, a), b)
    decreases |a|
  {
    hide Enabled, Apply, SnapshotOk, FitOk;
    if a == [] {
      assert a + b == b;
    } else {
      assert (a + b)[0] == a[0] && (a + b)[1..] == a[1..] + b;
      Split(Apply(s, a[0]), a[1..], b);
    }
  }

  /** Loaded positions that are too far apart need not do harm: there is such a run whose reservations all fit. */
  lemma StaleSnapshotMayFit(n: nat, buf: seq<byte>, interested: nat) returns (acts: seq<Action>)
    requires n >= 2 && HEADER <= |buf| < WORD64
    ensures ValidRun(Init(n, buf, interested), acts)
    ensures !SnapshotsOk(Init(n, buf, interested), acts) && ReservesFit(Init(n, buf, interested), acts)
  {
    hide Init, Holding;
    var s := Init(n, buf, interested);
    var prefix, mid := Filled(n, buf, interested);
    var more, empty := ReceiveAll(mid);
    LeadsThen(s, prefix, mid, more, empty);
    prefix := prefix + more;
    LeadsFit(s, prefix);
    GapAgain(|buf|);
    var stale, t := StaleReserve(empty);
    RunConcat(s, prefix, stale);
    Split(s, prefix, stale);
    acts := prefix + stale;
  }

  lemma FirstByte(pad: nat)
    requires pad < HEADER
    ensures |Content(NUMBER, pad)| == pad + 8 && Content(NUMBER, pad)[pad] == 2
  {
    EmptySize();
  }

  /** The first byte copied into a range that does not fit lands on the type of the unread message. */
  lemma StaleWrite(s: State) returns (acts: seq<Action>, t: State)
    requires Behind(s) && s.reservePos == |s.buf| + 8
    ensures ValidRun(s, acts) && Final(s, acts) == t && !SnapshotsOk(s, acts) && !ReservesFit(s, acts)
    ensures t.readPos == 8 && t.reservePos > t.readPos + |t.buf| && |t.buf| == |s.buf| > 0
    ensures t.consumed == 1 < t.committed <= |t.log| && t.log[1] == Reservation(1, TEXT, 8, GapAt(8, |t.buf|))
    ensures t.buf[(8 + GapAt(8, |t.buf|)) % |t.buf|] == 2
  {
    hide AlignUp, MessageSize, Inv, Content, PaddingFor, Reserved;
    var reserve, mid := StaleReserve(s);
    var pad := GapAt(8, |s.buf|);
    GapAgain(|s.buf|);
    FirstByte(pad);
    assert Enabled(mid, WriteByte(0));
    t := Apply(mid, WriteByte(0));
    assert [WriteByte(0)][1..] == [] && ValidRun(t, []) && Final(t, []) == t;
    assert ValidRun(mid, [WriteByte(0)]) && Final(mid, [WriteByte(0)]) == t;
    RunConcat(s, reserve, [WriteByte(0)]);
    acts := reserve + [WriteByte(0)];
    Prefix(s, reserve, [WriteByte(0)]);
  }

  lemma {:induction false} Prefix(s: State, a: seq<Action>, b: seq<Action>)
    requires ValidRun(s, a) && ValidRun(s, a + b)
    ensures SnapshotsOk(s, a + b) ==> SnapshotsOk(s, a)
    ensures ReservesFit(s, a + b) ==> ReservesFit(s, a)
    decreases |a|
  {
    hide Enabled, Apply, SnapshotOk, FitOk;
    if a != [] {
      assert (a + b)[0] == a[0] && (a + b)[1..] == a[1..] + b;
      Prefix(Apply(s, a[0]), a[1..], b);
    }
  }

  /**
   For every buffer that holds a record, with any two or more producers, there is a run that reserves
   past the read position by more than the capacity and after which a committed unread message no
   longer decodes to what its producer sent.
   */
  lemma StaleSnapshotOverwrites(n: nat, buf: seq<byte>, interested: nat) returns (acts: seq<Action>)
    requires n >= 2 && HEADER <= |buf| < WORD64
    ensures ValidRun(Init(n, buf, interested), acts)
    ensures !SnapshotsOk(Init(n, buf, interested), acts) && !ReservesFit(Init(n, buf, interested), acts)
    ensures var s := Final(Init(n, buf, interested), acts);
            && |s.buf| > 0 && s.reservePos > s.readPos + |s.buf|
            && s.consumed < s.committed <= |s.log| && !Decodes(s, s.consumed)
  {
    hide Init, Behind, Decodes;
    var s := Init(n, buf, interested);
    var prefix, full := Filled(n, buf, interested);
    var stale, t := StaleWrite(full);
    RunConcat(s, prefix, stale);
    Split(s, prefix, stale);
    acts := prefix + stale;
    Overwritten(t);
  }

  lemma NotSound(t: State)
    requires t.reservePos > t.readPos + |t.buf|
    ensures !Sound(t)
  {
    hide Decodes, AtEights, AtRecord, Kept;
  }

  lemma Overwritten(t: State)
    requires |t.buf| > 0 && 1 < |t.log| && t.log[1] == Reservation(1, TEXT, 8, GapAt(8, |t.buf|))
    requires t.buf[(8 + GapAt(8, |t.buf|)) % |t.buf|] == 2
    ensures !Decodes(t, 1)
  {
    hide GapAt;
    var o := (8 + GapAt(8, |t.buf|)) % |t.buf|;
    if o + HEADER <= |t.buf| {
      var header := t.buf[o..o + HEADER];
      assert header[..4][0] == 2;
      assert TypeIn(header) == 2 + 256 * FromLe(header[..4][1..]);
    }
  }
}
