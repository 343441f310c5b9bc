/**
 What holds in every run of the byte ring whose reservations fit: safety, and that it fails
 otherwise, refinement of a plain queue, ordered publication, and the bound on the consumer's loop.
 */
module RingTheorems {
  import opened Bytes
  import opened RingRecords
  import opened RingMachine
  import opened RingSafety
  import opened RingConsumer

  /** A buffer of a size that works: a multiple of 8, or less than 24. */
  predicate GoodBuffer(buf: seq<byte>) {
    0 < |buf| < WORD64 && Works(|buf|)
  }

  lemma Reached(n: nat, buf: seq<byte>, interested: nat, acts: seq<Action>) returns (s: State)
    requires GoodBuffer(buf)
    requires ValidRun(Init(n, buf, interested), acts) && ReservesFit(Init(n, buf, interested), acts)
    ensures s == Final(Init(n, buf, interested), acts) && Inv(s)
  {
    hide Inv;
    InitInv(n, buf, interested);
    FitRun(Init(n, buf, interested), acts);
    s := Final(Init(n, buf, interested), acts);
  }

  // ---------- Safety ----------

  /** The record of reservation i, read from the buffer where the consumer will look, is the producer's message. */
  ghost predicate Decodes(s: State, i: nat)
    requires i < |s.log| && |s.buf| > 0
  {
    var m, o := s.log[i].m, (s.log[i].begin + s.log[i].pad) % |s.buf|;
    && o + HEADER + |m.payload| <= |s.buf|
    && TypeIn(s.buf[o..o + HEADER]) == m.typ
    && SizeIn(s.buf[o..o + HEADER]) == |m.payload|
    && s.buf[o + HEADER..o + HEADER + |m.payload|] == m.payload
  }

  /** A contiguous stretch of committed positions has its bytes contiguous in the buffer. */
  lemma Stretch(s: State, x: nat, n: nat)
    requires Bytewise(s) && s.readPos <= x && x + n <= s.commitPos && x % |s.buf| + n <= |s.buf|
    ensures s.buf[x % |s.buf|..x % |s.buf| + n] == s.stream[x..x + n]
  {
    hide Written;
    var cells, bytes := s.buf[x % |s.buf|..x % |s.buf| + n], s.stream[x..x + n];
    forall k | 0 <= k < n
      ensures cells[k] == bytes[k]
    {
      ModStep(x, k, |s.buf|);
      assert Cell(s.buf, x + k) == s.stream[x + k];
    }
  }

  lemma UnreadDecodes(s: State, i: nat)
    requires Inv(s) && s.consumed <= i < s.committed
    ensures Decodes(s, i)
  {
    hide AlignUp, PaddingFor, Content, Tiled, Owners, Snapshots, Histories, Reading, HeaderBytes, TypeIn, SizeIn;
    var r := s.log[i];
    var x, n, o := r.begin + r.pad, |r.m.payload|, (r.begin + r.pad) % |s.buf|;
    UnreadInside(s, i);
    HeaderRoundTrip(r.m.typ, n);
    Stretch(s, x, HEADER);
    Stretch(s, x, HEADER + n);
    SliceOfSlice(s.buf, o, o + HEADER + n, HEADER, HEADER + n);
    SliceOfSlice(s.stream, x, x + HEADER + n, HEADER, HEADER + n);
  }

  /** A committed unread record lies between read and commit position and does not wrap. */
  lemma UnreadInside(s: State, i: nat)
    requires Positions(s) && s.consumed <= i < s.committed
    ensures var r := s.log[i]; var x, n := r.begin + r.pad, |r.m.payload|;
            && s.readPos <= x && x + HEADER + n <= s.commitPos && x % |s.buf| + HEADER + n <= |s.buf|
            && s.stream[x..x + HEADER] == HeaderBytes(r.m.typ, n)
            && s.stream[x + HEADER..x + HEADER + n] == r.m.payload
            && ValidMessage(r.m)
  {
    hide AlignUp, PaddingFor, Content, HeaderBytes;
    assert Tile(s.log, s.stream, |s.buf|, i);
    TileShape(s.log, s.stream, |s.buf|, i);
    StreamRecord(s.log, s.stream, |s.buf|, i);
    BoundsGrow(s.log, s.stream, |s.buf|, i + 1, s.committed);
    UnreadAhead(s, i);
  }

  lemma UnreadAhead(s: State, i: nat)
    requires Positions(s) && s.consumed <= i < s.committed
    ensures s.readPos <= s.log[i].begin + s.log[i].pad
  {
    hide AlignUp, PaddingFor, Content;
    assert Tile(s.log, s.stream, |s.buf|, i);
    BoundsGrow(s.log, s.stream, |s.buf|, s.consumed, i);
    if s.consumed < i {
      assert Tile(s.log, s.stream, |s.buf|, s.consumed);
      BoundsGrow(s.log, s.stream, |s.buf|, s.consumed + 1, i);
    }
  }

  /** The read position is in front of the first unread reservation, or behind its padding. */
  ghost predicate AtRecord(s: State)
    requires s.consumed <= s.committed <= |s.log|
  {
    || s.readPos == Bound(s.log, s.consumed)
    || (s.consumed < s.committed && s.readPos == s.log[s.consumed].begin + s.log[s.consumed].pad)
  }

  ghost predicate AtEights(s: State)
    requires |s.buf| > 0
  {
    && s.readPos % |s.buf| % 8 == s.commitPos % |s.buf| % 8 == s.reservePos % |s.buf| % 8 == 0
    && (|s.buf| % 8 == 0 ==> s.readPos % 8 == s.commitPos % 8 == s.reservePos % 8 == 0)
  }

  /**
   The positions are in order and within one capacity, so that different positions in use have
   different cells, and at offsets that are multiples of 8; the read position is in front of a record;
   the unpublished reservations tile the span from commit to reserve position and each is owned by
   the one producer writing it; every committed unread record decodes, in the buffer, to what its
   producer wrote; and what was delivered is what the consumer wants of what it consumed.
   */
  ghost predicate Sound(s: State) {
    && |s.buf| > 0
    && s.readPos <= s.commitPos <= s.reservePos <= s.readPos + |s.buf|
    && (forall x, y :: s.readPos <= x < y < s.reservePos ==> x % |s.buf| != y % |s.buf|)
    && AtEights(s)
    && s.consumed <= s.committed <= |s.log|
    && AtRecord(s) && s.commitPos == Bound(s.log, s.committed) && s.reservePos == Bound(s.log, |s.log|)
    && (forall i :: s.committed <= i < |s.log| ==> s.log[i].begin == Bound(s.log, i) && Owner(s, i))
    && (forall i :: s.consumed <= i < s.committed ==> Decodes(s, i))
    && s.delivered == Kept(s.log[..s.consumed], s.interested)
  }

  lemma OffsetOfEights(pos: nat, capacity: nat)
    requires capacity > 0 && capacity % 8 == 0 && pos % capacity % 8 == 0
    ensures pos % 8 == 0
  {
    var q, r := Quotient(pos, capacity);
    TimesMultiple(capacity, capacity / 8, q);
    EightsAdd(8 * (capacity / 8 * q), r);
  }

  lemma InvAtEights(s: State)
    requires Positions(s)
    ensures AtEights(s)
  {
    hide AlignUp, PaddingFor, Content, Tile, FirstWritten;
    BoundAligned(s.log, s.stream, |s.buf|, s.consumed);
    BoundAligned(s.log, s.stream, |s.buf|, s.committed);
    BoundAligned(s.log, s.stream, |s.buf|, |s.log|);
    if s.readPos != Bound(s.log, s.consumed) {
      assert Tile(s.log, s.stream, |s.buf|, s.consumed);
      BehindPadding(s.log, s.stream, |s.buf|, s.consumed);
    }
    if |s.buf| % 8 == 0 {
      OffsetOfEights(s.readPos, |s.buf|);
      OffsetOfEights(s.commitPos, |s.buf|);
      OffsetOfEights(s.reservePos, |s.buf|);
    }
  }

  lemma BehindPadding(log: seq<Reservation>, stream: seq<byte>, capacity: nat, i: nat)
    requires i < |log| && 0 < capacity && Tile(log, stream, capacity, i)
    ensures (log[i].begin + log[i].pad) % capacity % 8 == 0
  {
    hide Tile, End, SizeOf, Content;
    TileShape(log, stream, capacity, i);
  }

  lemma InvSound(s: State)
    requires Inv(s)
    ensures Sound(s)
  {
    hide Reading, Snapshots, Bytewise, Decodes, Content, PaddingFor, AlignUp, AtEights, SentBy, Kept, FirstWritten;
    InvAtEights(s);
    forall x, y | s.readPos <= x < y < s.reservePos
      ensures x % |s.buf| != y % |s.buf|
    {
      CellsDiffer(x, y, |s.buf|);
    }
    forall i | s.consumed <= i < s.committed
      ensures Decodes(s, i)
    {
      UnreadDecodes(s, i);
    }
    forall i | s.committed <= i < |s.log|
      ensures s.log[i].begin == Bound(s.log, i) && Owner(s, i)
    {
      assert Tile(s.log, s.stream, |s.buf|, i);
    }
  }

  /** Safety, for any number of producers: every run whose reservations fit ends in a sound state. */
  lemma RingIsSafe(n: nat, buf: seq<byte>, interested: nat, acts: seq<Action>)
    requires GoodBuffer(buf)
    requires ValidRun(Init(n, buf, interested), acts) && ReservesFit(Init(n, buf, interested), acts)
    ensures Sound(Final(Init(n, buf, interested), acts))
  {
    hide Inv, Sound;
    var s := Reached(n, buf, interested, acts);
    InvSound(s);
  }

  /** Every state of a run is sound. */
  ghost predicate AlwaysSound(s: State, acts: seq<Action>)
    requires ValidRun(s, acts)
    decreases |acts|
  {
    Sound(s) && (acts == [] || AlwaysSound(Apply(s, acts[0]), acts[1..]))
  }

  /** A reservation that does not fit goes beyond one capacity. */
  lemma UnfitIsUnsound(s: State, a: Action)
    requires Enabled(s, a) && !FitOk(s, a)
    ensures !Sound(Apply(s, a))
  {
    hide AlignUp, PaddingFor, Content, Reserved, Decodes, AtEights, Kept;
  }

  lemma {:induction false} SoundExactlyIfFit(s: State, acts: seq<Action>)
    requires Inv(s) && Works(|s.buf|) && ValidRun(s, acts)
    ensures AlwaysSound(s, acts) <==> ReservesFit(s, acts)
    decreases |acts|
  {
    hide Inv, Sound, Apply, Enabled, FitOk, SkipOk, Works;
    InvSound(s);
    if acts != [] {
      if FitOk(s, acts[0]) {
        WorksSkipOk(s, acts[0]);
        StepInv(s, acts[0]);
        BufferKept(s, acts[0]);
        SoundExactlyIfFit(Apply(s, acts[0]), acts[1..]);
      } else {
        UnfitIsUnsound(s, acts[0]);
      }
    }
  }

  /**
   The exact condition, for any number of producers and a capacity that works: all states of a run are
   sound if and only if every successful compare-exchange of the reserve position reserves a range
   that ends at most one capacity behind the read position.
   */
  lemma SafeExactlyIfFit(n: nat, buf: seq<byte>, interested: nat, acts: seq<Action>)
    requires GoodBuffer(buf) && ValidRun(Init(n, buf, interested), acts)
    ensures AlwaysSound(Init(n, buf, interested), acts) <==> ReservesFit(Init(n, buf, interested), acts)
  {
    hide Inv;
    InitInv(n, buf, interested);
    SoundExactlyIfFit(Init(n, buf, interested), acts);
  }

  /** Every byte a producer stores goes to the cell of its own position, inside the buffer. */
  lemma WritesStayInside(n: nat, buf: seq<byte>, interested: nat, acts: seq<Action>, p: nat)
    requires GoodBuffer(buf)
    requires ValidRun(Init(n, buf, interested), acts) && ReservesFit(Init(n, buf, interested), acts)
    requires Enabled(Final(Init(n, buf, interested), acts), WriteByte(p))
    ensures var s := Final(Init(n, buf, interested), acts); var pc := s.producers[p].pc;
            && |s.buf| > 0 && s.commitPos <= pc.begin + pc.done < s.reservePos
            && Address(pc.begin, pc.pad, pc.done, |s.buf|) == (pc.begin + pc.done) % |s.buf|
  {
    hide AlignUp, PaddingFor, Content, Reading, Histories, Bytewise, Snapshots;
    var s := Reached(n, buf, interested, acts);
    var pc := s.producers[p].pc;
    assert Owned(s, p);
    WritingInside(s, p);
    AddressIsCell(s.log, s.stream, |s.buf|, pc.ticket, pc.done);
  }

  // ---------- Snapshots ----------

  /** Positions loaded by producers respect the snapshot hypothesis. */
  ghost predicate Snapped(s: State) {
    forall p :: 0 <= p < |s.producers| && s.producers[p].pc.GotBoth? ==>
      s.producers[p].pc.reserve <= s.producers[p].pc.read + |s.buf|
  }

  /** A reservation admitted on a snapshot in order fits, whatever the consumer has read since. */
  lemma SnappedFits(s: State, a: Action)
    requires Inv(s) && Snapped(s) && Enabled(s, a)
    ensures FitOk(s, a)
  {
    hide AlignUp, PaddingFor, Content, Reading, Histories, Owners, Bytewise, Tiled, Admits;
    if a.Reserve? {
      assert Loaded(s, a.p);
      var pc := s.producers[a.p].pc;
      AdmitsWithin(|s.buf|, pc.read, pc.reserve, Required(pc.m, pc.reserve, |s.buf|));
    }
  }

  lemma SnappedStep(s: State, a: Action)
    requires Snapped(s) && Enabled(s, a) && SnapshotOk(s, a)
    ensures Snapped(Apply(s, a))
  {
    hide AlignUp, PaddingFor, Content, Admits, Reserved;
  }

  lemma {:induction false} SnapshotsSuffice(s: State, acts: seq<Action>)
    requires Inv(s) && Works(|s.buf|) && Snapped(s) && ValidRun(s, acts) && SnapshotsOk(s, acts)
    ensures ReservesFit(s, acts)
    decreases |acts|
  {
    hide Inv, Snapped, Apply, Enabled, FitOk, SkipOk, SnapshotOk, Works;
    if acts != [] {
      SnappedFits(s, acts[0]);
      SnappedStep(s, acts[0]);
      WorksSkipOk(s, acts[0]);
      StepInv(s, acts[0]);
      BufferKept(s, acts[0]);
      SnapshotsSuffice(Apply(s, acts[0]), acts[1..]);
    }
  }

  /** The snapshot hypothesis, which a producer could test, is enough for every reservation to fit. */
  lemma SnapshotsMakeFit(n: nat, buf: seq<byte>, interested: nat, acts: seq<Action>)
    requires GoodBuffer(buf)
    requires ValidRun(Init(n, buf, interested), acts) && SnapshotsOk(Init(n, buf, interested), acts)
    ensures ReservesFit(Init(n, buf, interested), acts)
  {
    hide Inv;
    InitInv(n, buf, interested);
    SnapshotsSuffice(Init(n, buf, interested), acts);
  }

  // ---------- One producer ----------

  /** With one producer nothing moves the reserve position between its two loads. */
  ghost predicate Solo(s: State) {
    && |s.producers| == 1 && Snapped(s)
    && (s.producers[0].pc.GotRead? ==> s.reservePos <= s.producers[0].pc.read + |s.buf|)
  }

  lemma {:induction false} SoloRun(s: State, acts: seq<Action>)
    requires Inv(s) && Works(|s.buf|) && Solo(s) && ValidRun(s, acts)
    ensures SnapshotsOk(s, acts) && ReservesFit(s, acts)
    decreases |acts|
  {
    hide Inv, Solo, Apply, Enabled, FitOk, SkipOk, SnapshotOk, Works;
    if acts != [] {
      SoloStep(s, acts[0]);
      WorksSkipOk(s, acts[0]);
      StepInv(s, acts[0]);
      BufferKept(s, acts[0]);
      SoloRun(Apply(s, acts[0]), acts[1..]);
    }
  }

  lemma SoloStep(s: State, a: Action)
    requires Inv(s) && Solo(s) && Enabled(s, a)
    ensures SnapshotOk(s, a) && FitOk(s, a) && Solo(Apply(s, a))
  {
    hide AlignUp, PaddingFor, Content, Tiled, Bound, Owners, Bytewise, Reading, Histories, Admits, Reserved, FitOk;
    SnappedFits(s, a);
    SnappedStep(s, a);
  }

  /** With one producer the snapshot hypothesis is a theorem: it holds in every run, and every reservation fits. */
  lemma OneProducerSnapshots(buf: seq<byte>, interested: nat, acts: seq<Action>)
    requires GoodBuffer(buf) && ValidRun(Init(1, buf, interested), acts)
    ensures SnapshotsOk(Init(1, buf, interested), acts) && ReservesFit(Init(1, buf, interested), acts)
  {
    InitInv(1, buf, interested);
    SoloRun(Init(1, buf, interested), acts);
  }

  // ---------- Refinement of a queue ----------

  /** A plain queue of messages, and what its consumer was given. */
  datatype Queue = Queue(waiting: seq<Message>, delivered: seq<Message>)

  function Messages(log: seq<Reservation>): (ms: seq<Message>)
    ensures |ms| == |log|
  {
    seq(|log|, i requires 0 <= i < |log| => log[i].m)
  }

  /** The queue a state of the ring stands for: the committed unread messages. */
  ghost function Abstract(s: State): Queue
    requires s.consumed <= s.committed <= |s.log|
  {
    Queue(Messages(s.log[s.consumed..s.committed]), s.delivered)
  }

  function Enqueue(q: Queue, m: Message): Queue {
    q.(waiting := q.waiting + [m])
  }

  function Dequeue(q: Queue, interested: nat): Queue
    requires q.waiting != []
  {
    Queue(q.waiting[1..],
          q.delivered + if Wanted(q.waiting[0].typ, interested) then [q.waiting[0]] else [])
  }

  /** The compare-exchange on the commit position enqueues the producer's message. */
  lemma PublishEnqueues(s: State, p: nat)
    requires Inv(s) && PEnabled(s, Publish(p), p)
    ensures s.committed < |s.log| && s.log[s.committed].p == p
    ensures Abstract(ApplyPublish(s, p)) == Enqueue(Abstract(s), s.producers[p].pc.m)
  {
    hide AlignUp, PaddingFor, Content, Tiled, Bytewise, Reading, Histories, Snapshots, Bound;
    assert Owned(s, p);
    PublishIsNext(s, p);
    assert s.log[s.consumed..s.committed + 1] == s.log[s.consumed..s.committed] + [s.log[s.committed]];
  }

  /**
   The final store of the read position dequeues the head, and delivers it byte for byte if the
   consumer is interested: if it is a Stop (type 3) or of the type asked for, or All (4) was asked for.
   */
  lemma FinishDequeues(s: State)
    requires Inv(s) && CEnabled(s, CFinish)
    ensures s.consumed < s.committed
    ensures Abstract(ApplyFinish(s)) == Dequeue(Abstract(s), s.interested)
    ensures Abstract(ApplyFinish(s)).waiting == Abstract(s).waiting[1..]
    ensures var m := Abstract(s).waiting[0];
            ApplyFinish(s).delivered ==
              if m.typ == 3 || s.interested == 4 || m.typ == s.interested then s.delivered + [m] else s.delivered
  {
    hide AlignUp, PaddingFor, Content, Owners, Bytewise, Histories, Snapshots;
    assert s.consumer.body[..|s.consumer.body|] == s.consumer.body;
    var m := s.log[s.consumed].m;
    assert Wanted(m.typ, s.interested) ==> Message(s.consumer.typ, s.consumer.body) == m by {
      assert m.payload[..|m.payload|] == m.payload;
    }
  }

  /** FIFO refinement: every step of the ring is an enqueue, a dequeue, or invisible to the queue. */
  lemma StepRefinesQueue(s: State, a: Action)
    requires Inv(s) && Enabled(s, a) && StepOk(s, a)
    ensures s.consumed <= s.committed <= |s.log|
    ensures Apply(s, a).consumed <= Apply(s, a).committed <= |Apply(s, a).log|
    ensures a.CFinish? ==> s.consumed < s.committed
    ensures Abstract(Apply(s, a)) ==
              if a.Publish? then Enqueue(Abstract(s), s.producers[a.p].pc.m)
              else if a.CFinish? then Dequeue(Abstract(s), s.interested)
              else Abstract(s)
  {
    hide AlignUp, PaddingFor, Content, Tiled, Owners, Bytewise, Reading, Histories, Snapshots, Bound, Admits;
    StepInv(s, a);
    if a.Publish? {
      PublishEnqueues(s, a.p);
    } else if a.CFinish? {
      FinishDequeues(s);
    } else if a.Reserve? {
      assert Apply(s, a).log[s.consumed..s.committed] == s.log[s.consumed..s.committed];
    }
  }

  /** The places in the log a selection comes from: in order, and exactly those of the entries chosen. */
  ghost predicate Places(places: seq<nat>, ms: seq<Message>, log: seq<Reservation>, chosen: Reservation -> bool) {
    && |places| == |ms|
    && (forall k :: 0 <= k < |places| ==> places[k] < |log| && chosen(log[places[k]]) && ms[k] == log[places[k]].m)
    && (forall j, k :: 0 <= j < k < |places| ==> places[j] < places[k])
    && (forall i :: 0 <= i < |log| && chosen(log[i]) ==> i in places)
  }

  lemma MorePlaces(places: seq<nat>, ms: seq<Message>, log: seq<Reservation>, chosen: Reservation -> bool, r: Reservation)
      returns (places': seq<nat>)
    requires Places(places, ms, log, chosen)
    ensures Places(places', ms + if chosen(r) then [r.m] else [], log + [r], chosen)
  {
    if chosen(r) {
      places' := places + [|log|];
      assert places'[|places|] == |log|;
      forall i | 0 <= i < |log| && chosen(log[i])
        ensures i in places'
      {
        assert i in places;
      }
    } else {
      places' := places;
      assert ms + [] == ms;
    }
    forall i | 0 <= i < |log + [r]| && chosen((log + [r])[i])
      ensures i in places'
    {
      assert i < |log| ==> (log + [r])[i] == log[i];
    }
  }

  /** A Stop, anything for a consumer of All, or a message of the type asked for. */
  function Interesting(interested: nat): Reservation -> bool {
    (r: Reservation) => r.m.typ == 3 || interested == 4 || r.m.typ == interested
  }

  function OfProducer(p: nat): Reservation -> bool {
    (r: Reservation) => r.p == p
  }

  lemma {:induction false} KeptExactly(log: seq<Reservation>, interested: nat) returns (places: seq<nat>)
    ensures Places(places, Kept(log, interested), log, Interesting(interested))
    decreases |log|
  {
    if log == [] {
      places := [];
    } else {
      var n := |log| - 1;
      places := KeptExactly(log[..n], interested);
      hide Places;
      places := MorePlaces(places, Kept(log[..n], interested), log[..n], Interesting(interested), log[n]);
      assert log[..n] + [log[n]] == log;
    }
  }

  lemma {:induction false} SentExactly(log: seq<Reservation>, p: nat) returns (places: seq<nat>)
    ensures Places(places, SentBy(log, p), log, OfProducer(p))
    decreases |log|
  {
    if log == [] {
      places := [];
    } else {
      var n := |log| - 1;
      places := SentExactly(log[..n], p);
      hide Places;
      places := MorePlaces(places, SentBy(log[..n], p), log[..n], OfProducer(p), log[n]);
      assert log[..n] + [log[n]] == log;
    }
  }

  /**
   What `Receive` delivered over a whole run is, in order and byte for byte, the part of the consumed
   prefix of committed messages the consumer is interested in: the Stops (type 3), all if it asked for
   All (4), and otherwise those of the type it asked for. `places` says where each stood.
   */
  lemma DeliveryIsFifo(n: nat, buf: seq<byte>, interested: nat, acts: seq<Action>) returns (places: seq<nat>)
    requires GoodBuffer(buf)
    requires ValidRun(Init(n, buf, interested), acts) && ReservesFit(Init(n, buf, interested), acts)
    ensures var s := Final(Init(n, buf, interested), acts);
            && s.consumed <= s.committed <= |s.log| && |places| == |s.delivered|
            && (forall k :: 0 <= k < |places| ==> places[k] < s.consumed && s.delivered[k] == s.log[places[k]].m)
            && (forall j, k :: 0 <= j < k < |places| ==> places[j] < places[k])
            && (forall i :: 0 <= i < s.consumed ==>
                  (i in places <==> s.log[i].m.typ == 3 || interested == 4 || s.log[i].m.typ == interested))
  {
    hide AlignUp, PaddingFor, Content, Tiled, Owners, Bytewise, Reading, Snapshots, Bound, Admits, Kept;
    var s := DeliveryIsKept(n, buf, interested, acts);
    var read := s.log[..s.consumed];
    places := KeptExactly(read, interested);
    forall i | 0 <= i < s.consumed
      ensures i in places <==> s.log[i].m.typ == 3 || interested == 4 || s.log[i].m.typ == interested
    {
      assert read[i] == s.log[i];
    }
  }

  /** Each producer's messages appear among the committed ones in the order it sent them, none missing. */
  lemma ProducerOrder(n: nat, buf: seq<byte>, interested: nat, acts: seq<Action>, p: nat) returns (places: seq<nat>)
    requires GoodBuffer(buf) && p < n
    requires ValidRun(Init(n, buf, interested), acts) && ReservesFit(Init(n, buf, interested), acts)
    ensures var s := Final(Init(n, buf, interested), acts);
            && s.committed <= |s.log| && |s.producers| == n && |places| == |s.producers[p].sent|
            && (forall k :: 0 <= k < |places| ==> places[k] < s.committed && s.producers[p].sent[k] == s.log[places[k]].m)
            && (forall j, k :: 0 <= j < k < |places| ==> places[j] < places[k])
            && (forall i :: 0 <= i < s.committed ==> (i in places <==> s.log[i].p == p))
  {
    hide AlignUp, PaddingFor, Content, Tiled, Owners, Bytewise, Reading, Snapshots, Bound, Admits, SentBy;
    var s := DeliveryIsKept(n, buf, interested, acts);
    var sent := s.log[..s.committed];
    places := SentExactly(sent, p);
    forall i | 0 <= i < s.committed
      ensures i in places <==> s.log[i].p == p
    {
      assert sent[i] == s.log[i];
    }
  }

  lemma DeliveryIsKept(n: nat, buf: seq<byte>, interested: nat, acts: seq<Action>) returns (s: State)
    requires GoodBuffer(buf)
    requires ValidRun(Init(n, buf, interested), acts) && ReservesFit(Init(n, buf, interested), acts)
    ensures s == Final(Init(n, buf, interested), acts)
    ensures && s.consumed <= s.committed <= |s.log| && |s.producers| == n
            && s.delivered == Kept(s.log[..s.consumed], interested)
            && forall p :: 0 <= p < n ==> s.producers[p].sent == SentBy(s.log[..s.committed], p)
  {
    hide AlignUp, PaddingFor, Content, Tiled, Owners, Bytewise, Reading, Snapshots, Bound, Admits;
    s := Reached(n, buf, interested, acts);
    ConstantsKept(Init(n, buf, interested), acts);
  }

  lemma {:induction false} ConstantsKept(s: State, acts: seq<Action>)
    requires ValidRun(s, acts)
    ensures Final(s, acts).interested == s.interested && |Final(s, acts).producers| == |s.producers|
    ensures |Final(s, acts).buf| == |s.buf|
    decreases |acts|
  {
    hide AlignUp, PaddingFor, Content, Admits;
    if acts != [] {
      ConstantsKept(Apply(s, acts[0]), acts[1..]);
    }
  }

  // ---------- The consumer's loop ----------

  /**
   TryReceive returns after at most one jump: it never meets a record that ends beyond the commit
   position, nor, if the capacity is a multiple of 8, a tail shorter than a header; and after a jump
   it finds a message.
   */
  lemma ConsumerLoopBound(n: nat, buf: seq<byte>, interested: nat, acts: seq<Action>)
    requires GoodBuffer(buf)
    requires ValidRun(Init(n, buf, interested), acts) && ReservesFit(Init(n, buf, interested), acts)
    ensures var s := Final(Init(n, buf, interested), acts);
            && (|buf| % 8 == 0 ==> !Enabled(s, CShortTail))
            && (Enabled(s, CShortTail) ==> s.consumer.skips == 0)
            && (s.consumer.CLoop? ==> s.consumer.skips <= 1)
            && (s.consumer.CGotRead? && s.consumer.skips > 0 ==> s.consumer.read != s.commitPos)
            && (Enabled(s, CParse) ==>
                  && s.consumer.read + MessageSize(SizeIn(s.consumer.got)) <= s.consumer.commit
                  && (s.consumer.skips > 0 ==> TypeIn(s.consumer.got) != PADDING))
  {
    hide Inv, Works, TypeIn, SizeIn, MessageSize;
    var s := Reached(n, buf, interested, acts);
    ConstantsKept(Init(n, buf, interested), acts);
    JumpBound(s);
    if s.consumer.CHeader? { TailBound(s); }
    if Enabled(s, CParse) { ParseBound(s); }
  }

  /** After a jump there is a message, and there is no second jump. */
  lemma JumpBound(s: State)
    requires Inv(s)
    ensures s.consumer.CLoop? ==> s.consumer.skips <= 1
    ensures s.consumer.CGotRead? && s.consumer.skips > 0 ==> s.consumer.read != s.commitPos
  {
    hide AlignUp, PaddingFor, Content, Owners, Bytewise, Snapshots, Histories, MessageSize, Tiled;
    if s.consumer.CGotRead? && s.consumer.skips > 0 {
      StreamAt(s);
    }
  }

  lemma TailBound(s: State)
    requires Inv(s) && s.consumer.CHeader?
    ensures |s.buf| % 8 == 0 ==> !Enabled(s, CShortTail)
    ensures Enabled(s, CShortTail) ==> s.consumer.skips == 0
  {
    hide AlignUp, PaddingFor, Content, Owners, Bytewise, Snapshots, Histories, MessageSize, Reading, Tile;
    ShortTail(s);
    assert Tile(s.log, s.stream, |s.buf|, s.consumed);
    if |s.buf| % 8 == 0 {
      PaddingOfEights(s.log, s.stream, |s.buf|, s.consumed);
    }
  }

  lemma ParseBound(s: State)
    requires Inv(s) && Works(|s.buf|) && CEnabled(s, CParse)
    ensures s.consumer.read + MessageSize(SizeIn(s.consumer.got)) <= s.consumer.commit
    ensures s.consumer.skips > 0 ==> TypeIn(s.consumer.got) != PADDING
  {
    hide AlignUp, PaddingFor, Content, Owners, Bytewise, Snapshots, Histories, TypeIn, SizeIn, MessageSize, Tiled, Works;
    WorksSkipOk(s, CParse);
    ParseDecodes(s);
    FrontShape(s);
  }

  lemma PaddingOfEights(log: seq<Reservation>, stream: seq<byte>, capacity: nat, i: nat)
    requires i < |log| && 0 < capacity && Tile(log, stream, capacity, i) && capacity % 8 == 0
    ensures log[i].pad % 8 == 0
  {
    hide Tile, End, SizeOf, Content;
    TileShape(log, stream, capacity, i);
  }

  // ---------- Ordered publication and progress ----------

  /** While something is unpublished, exactly one producer owns the range at the commit position. */
  lemma NextPublisherIsUnique(n: nat, buf: seq<byte>, interested: nat, acts: seq<Action>) returns (p: nat)
    requires GoodBuffer(buf)
    requires ValidRun(Init(n, buf, interested), acts) && ReservesFit(Init(n, buf, interested), acts)
    requires Final(Init(n, buf, interested), acts).commitPos < Final(Init(n, buf, interested), acts).reservePos
    ensures var s := Final(Init(n, buf, interested), acts);
            && s.committed < |s.log| && p == s.log[s.committed].p < |s.producers|
            && forall q :: 0 <= q < |s.producers| ==>
                 (s.producers[q].pc.Writing? && s.producers[q].pc.begin == s.commitPos <==> q == p)
  {
    hide AlignUp, PaddingFor, Content, Bytewise, Snapshots, Histories, Reading;
    var s := Reached(n, buf, interested, acts);
    assert Owner(s, s.committed);
    p := s.log[s.committed].p;
    forall q | 0 <= q < |s.producers|
      ensures s.producers[q].pc.Writing? && s.producers[q].pc.begin == s.commitPos <==> q == p
    {
      assert Owned(s, q);
      if s.producers[q].pc.Writing? {
        PublishIsNext(s, q);
      }
    }
  }

  function Publishes(acts: seq<Action>): nat {
    if acts == [] then 0 else (if acts[0].Publish? then 1 else 0) + Publishes(acts[1..])
  }

  function Reserves(acts: seq<Action>): nat {
    if acts == [] then 0 else (if acts[0].Reserve? then 1 else 0) + Reserves(acts[1..])
  }

  lemma StepBalance(s: State, a: Action)
    requires Enabled(s, a)
    ensures |Apply(s, a).log| == |s.log| + (if a.Reserve? then 1 else 0)
    ensures Apply(s, a).committed == s.committed + (if a.Publish? then 1 else 0)
  {
    hide AlignUp, PaddingFor, Content, Admits;
  }

  /** Over any stretch of a run, reservations in flight change by successful reservations less publications. */
  lemma {:induction false} InFlightBalance(s: State, acts: seq<Action>)
    requires Inv(s) && ValidRun(s, acts) && StepsOk(s, acts)
    ensures |Final(s, acts).log| - Final(s, acts).committed + Publishes(acts)
            == |s.log| - s.committed + Reserves(acts)
    decreases |acts|
  {
    if acts != [] {
      StepBalance(s, acts[0]);
      StepInv(s, acts[0]);
      hide Inv, Apply;
      InFlightBalance(Apply(s, acts[0]), acts[1..]);
    }
  }
}
