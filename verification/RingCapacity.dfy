/**
 For which buffer sizes the byte ring works: exactly the multiples of 8 and those below 24. For any
 other size a padding record whose length is no multiple of 8 is written, and the consumer, rounding
 that length up, jumps into the middle of the message behind it.
 */
module RingCapacity {
  import opened Bytes
  import opened RingRecords
  import opened RingMachine
  import opened RingSafety
  import opened RingConsumer
  import opened RingTheorems
  import opened RingRuns
  import opened RingBounds
  import opened RingStale

  /** The offset at which the tail holds a header, but its length is not a multiple of 8. */
  function BadOffset(capacity: nat): nat
    requires capacity >= 24
  {
    capacity - capacity % 8 - 8
  }

  const EIGHT: Message := Message(1, Zeros(8))

  lemma EightSize()
    ensures ValidMessage(EIGHT) && SizeOf(EIGHT) == 16
  {
    SizeCoversPayload(8);
  }

  /** A record of 16 bytes at that offset gets padding in front that is not skipped exactly, and is admitted. */
  lemma BadPadding(capacity: nat)
    requires capacity >= 24 && capacity % 8 != 0
    ensures var o, pad := BadOffset(capacity), PaddingFor(BadOffset(capacity), 16, capacity);
            && o % 8 == 0 && o % capacity == o && pad == 8 + capacity % 8 && !Skippable(pad) && pad + 16 <= capacity
            && o + pad == capacity && MessageSize(pad - HEADER) == 16
  {
    hide MessageSize;
    var q, c, o := capacity / 8, capacity % 8, BadOffset(capacity);
    assert capacity == 8 * q + c && o == 8 * (q - 1);
    SmallRest(o, capacity);
    SmallRest(8 + c, WORD32);
    RoundsToTwoHeaders(c);
    NotEight(c);
  }

  lemma NotEight(c: nat)
    requires 0 < c < 8
    ensures (8 + c) % 8 == c
  {
  }

  lemma RoundsToTwoHeaders(c: nat)
    requires 0 < c < 8
    ensures MessageSize(c) == 16
  {
    hide MessageSize;
    SizeCoversPayload(c);
    var k := MessageSize(c) / 8;
    assert MessageSize(c) == 8 * k;
  }

  /** A run of sends and receives of empty messages to a quiet state at that offset. */
  lemma ReachBadOffset(n: nat, buf: seq<byte>, interested: nat) returns (acts: seq<Action>, t: State)
    requires n > 0 && 24 <= |buf| < WORD64 && |buf| % 8 != 0
    ensures Leads(Init(n, buf, interested), acts, t) && Quiet(t)
    ensures t.reservePos == BadOffset(|buf|) && |t.buf| == |buf| && |t.producers| == n
  {
    hide Inv;
    var s, o := Init(n, buf, interested), BadOffset(|buf|);
    InitInv(n, buf, interested);
    BadPadding(|buf|);
    forall j | 0 <= j < o / 8
      ensures (s.reservePos + 8 * j) % |s.buf| + HEADER <= |s.buf|
    {
      SmallRest(8 * j, |buf|);
    }
    acts, t := ReachPosition(s, o / 8);
  }

  /** The consumer reads the padding record's header. */
  lemma ReachPadding(s: State) returns (acts: seq<Action>, t: State)
    requires Inv(s) && s.consumer.CIdle? && s.consumed < s.committed
    requires s.readPos == s.log[s.consumed].begin && s.log[s.consumed].pad >= HEADER
    ensures Leads(s, acts, t) && Inv(t)
    ensures t.consumer.CHeader? && |t.consumer.got| == HEADER
    ensures t == s.(consumer := CHeader(s.readPos, s.commitPos, t.consumer.got, 0))
  {
    hide AlignUp, PaddingFor, Content, Tiled, Owners, Bytewise, Snapshots, Histories;
    LeadsOne(s, CBegin);
    StepInv(s, CBegin);
    var begun := Apply(s, CBegin);
    var more, loaded := LoadTurn(begun);
    LeadsThen(s, [CBegin], begun, more, loaded);
    ShortTail(loaded);
    var header;
    header, t := ReadHeader(loaded);
    LeadsThen(s, [CBegin] + more, loaded, header, t);
    acts := [CBegin] + more + header;
  }

  /** Parsing it, the consumer jumps by the padding's length rounded up. */
  lemma JumpsTooFar(s: State)
    requires Inv(s) && CEnabled(s, CParse) && s.consumed < s.committed <= |s.log|
    requires s.readPos == s.log[s.consumed].begin && s.log[s.consumed].pad >= HEADER
    requires s.readPos + MessageSize(s.log[s.consumed].pad - HEADER) <= s.consumer.commit
    ensures var pad := s.log[s.consumed].pad;
            ApplyParse(s) == s.(readPos := s.readPos + MessageSize(pad - HEADER), consumer := CLoop(s.consumer.skips + 1))
  {
    hide AlignUp, MessageSize, PaddingFor, Content, HeaderBytes, Positions, Owners, Snapshots, Histories, Bytewise, Reading,
         TypeIn, SizeIn;
    GotAtFront(s);
    FrontShape(s);
    HeaderRoundTrip(PADDING, s.log[s.consumed].pad - HEADER);
  }

  /** The read position lies inside the first unread message record, behind its padding and before its end. */
  ghost predicate InsideRecord(s: State) {
    && s.consumed < s.committed <= |s.log| && s.log[s.consumed].begin == Bound(s.log, s.consumed)
    && s.log[s.consumed].begin + s.log[s.consumed].pad < s.readPos < End(s.log[s.consumed])
  }

  lemma InsideIsUnsound(s: State)
    requires InsideRecord(s)
    ensures !Sound(s)
  {
    hide Decodes, AtEights, Kept;
  }

  /**
   For every capacity from 24 on that is no multiple of 8, and already with one producer, there is a
   run whose reservations all fit and after which the read position lies inside an unread message.
   */
  lemma BadCapacityBreaks(n: nat, buf: seq<byte>, interested: nat) returns (acts: seq<Action>)
    requires n > 0 && 24 <= |buf| < WORD64 && |buf| % 8 != 0
    ensures ValidRun(Init(n, buf, interested), acts) && ReservesFit(Init(n, buf, interested), acts)
    ensures InsideRecord(Final(Init(n, buf, interested), acts))
  {
    hide Inv, AlignUp, MessageSize, PaddingFor, BadOffset, Skippable;
    var s := Init(n, buf, interested);
    var quiet, sent, read, more;
    acts, quiet := ReachBadOffset(n, buf, interested);
    BadPadding(|buf|);
    EightSize();
    more, sent := SendTrip(quiet, 0, EIGHT);
    LeadsThen(s, acts, quiet, more, sent);
    acts := acts + more;
    more, read := ReachPadding(sent);
    LeadsThen(s, acts, sent, more, read);
    acts := acts + more;
    JumpsTooFar(read);
    QuietBound(quiet);
    LeadsFit(s, acts);
    OneMore(s, acts, read, CParse);
    acts := acts + [CParse];
  }

  lemma QuietBound(s: State)
    requires Quiet(s)
    ensures s.reservePos == Bound(s.log, |s.log|) && s.consumed == s.committed == |s.log| && s.readPos == s.reservePos
  {
    hide Owners, Bytewise, Snapshots, Reading, Histories, Tile;
  }

  lemma OneMore(s: State, acts: seq<Action>, t: State, a: Action)
    requires ValidRun(s, acts) && Final(s, acts) == t && ReservesFit(s, acts) && Enabled(t, a) && !a.Reserve?
    ensures ValidRun(s, acts + [a]) && Final(s, acts + [a]) == Apply(t, a) && ReservesFit(s, acts + [a])
  {
    hide Enabled, Apply;
    var u := Apply(t, a);
    assert [a][1..] == [] && ValidRun(u, []) && Final(u, []) == u && ReservesFit(u, []);
    assert ValidRun(t, [a]) && Final(t, [a]) == u && ReservesFit(t, [a]);
    RunConcat(s, acts, [a]);
  }

  // ---------- The exact condition ----------

  /** Every run whose reservations fit ends in a sound state. */
  ghost predicate RingWorks(n: nat, buf: seq<byte>, interested: nat) {
    forall acts :: ValidRun(Init(n, buf, interested), acts) && ReservesFit(Init(n, buf, interested), acts) ==>
                     Sound(Final(Init(n, buf, interested), acts))
  }

  /**
   The ring works, for any number of producers, if and only if the size of its buffer is a multiple of 8
   or less than 24.
   */
  lemma CapacitiesThatWork(n: nat, buf: seq<byte>, interested: nat)
    requires n > 0 && 0 < |buf| < WORD64
    ensures RingWorks(n, buf, interested) <==> |buf| % 8 == 0 || |buf| < 24
  {
    hide Sound, InsideRecord;
    if Works(|buf|) {
      forall acts | ValidRun(Init(n, buf, interested), acts) && ReservesFit(Init(n, buf, interested), acts)
        ensures Sound(Final(Init(n, buf, interested), acts))
      {
        RingIsSafe(n, buf, interested, acts);
      }
    } else {
      var acts := BadCapacityBreaks(n, buf, interested);
      InsideIsUnsound(Final(Init(n, buf, interested), acts));
    }
  }

  /** Every run at all ends in a sound state. */
  ghost predicate SafeAsItIs(n: nat, buf: seq<byte>, interested: nat) {
    forall acts :: ValidRun(Init(n, buf, interested), acts) ==> Sound(Final(Init(n, buf, interested), acts))
  }

  /** With one producer nothing else is asked: every run at all ends in a sound state, for exactly those sizes. */
  lemma OneProducerWorks(buf: seq<byte>, interested: nat)
    requires 0 < |buf| < WORD64
    ensures SafeAsItIs(1, buf, interested) <==> |buf| % 8 == 0 || |buf| < 24
  {
    hide Sound, InsideRecord;
    if Works(|buf|) {
      forall acts | ValidRun(Init(1, buf, interested), acts)
        ensures Sound(Final(Init(1, buf, interested), acts))
      {
        OneProducerSnapshots(buf, interested, acts);
        RingIsSafe(1, buf, interested, acts);
      }
    } else {
      var acts := BadCapacityBreaks(1, buf, interested);
      InsideIsUnsound(Final(Init(1, buf, interested), acts));
    }
  }

  // ---------- Without any condition on the run ----------

  /** Without producers, or without room for a single record, nothing is ever reserved. */
  lemma BarrenStep(s: State, a: Action)
    requires Inv(s) && s.log == [] && (|s.producers| == 0 || |s.buf| < HEADER) && Enabled(s, a)
    ensures Inv(Apply(s, a)) && Apply(s, a).log == []
  {
    hide AlignUp, PaddingFor, Content, Positions, Owners, Bytewise, Reading, Histories, MessageSize, Admits;
    if a.Reserve? {
      assert Loaded(s, a.p);
      SizeCoversPayload(|s.producers[a.p].pc.m.payload|);
    }
    StepInv(s, a);
  }

  lemma {:induction false} BarrenRun(s: State, acts: seq<Action>)
    requires Inv(s) && s.log == [] && (|s.producers| == 0 || |s.buf| < HEADER) && ValidRun(s, acts)
    ensures Inv(Final(s, acts))
    decreases |acts|
  {
    hide Inv, Apply, Enabled;
    if acts != [] {
      BarrenStep(s, acts[0]);
      BufferKept(s, acts[0]);
      BarrenRun(Apply(s, acts[0]), acts[1..]);
    }
  }

  /**
   Which queues are safe in every run, told before the first call: those without producers, those that
   hold no record at all, and those with one producer and a size that works. No other is.
   */
  lemma SafeAsItIsExactlyIf(n: nat, buf: seq<byte>, interested: nat)
    requires 0 < |buf| < WORD64
    ensures SafeAsItIs(n, buf, interested) <==> n == 0 || |buf| < HEADER || (n == 1 && Works(|buf|))
  {
    hide Sound, Inv, Init;
    if n == 0 || |buf| < HEADER {
      forall acts | ValidRun(Init(n, buf, interested), acts)
        ensures Sound(Final(Init(n, buf, interested), acts))
      {
        InitInv(n, buf, interested);
        InitShape(n, buf, interested);
        BarrenRun(Init(n, buf, interested), acts);
        InvSound(Final(Init(n, buf, interested), acts));
      }
    } else if n == 1 {
      OneProducerWorks(buf, interested);
    } else {
      var acts := StaleSnapshotOverwrites(n, buf, interested);
      NotSound(Final(Init(n, buf, interested), acts));
    }
  }

  lemma InitShape(n: nat, buf: seq<byte>, interested: nat)
    ensures var s := Init(n, buf, interested); s.log == [] && |s.producers| == n && s.buf == buf
  {
  }
}
