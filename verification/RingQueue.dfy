/**
 The byte ring in the source's own form: a shared buffer written in place, three positions, and the
 loops of TrySend and TryReceive, executed by one thread at a time. Each call is proved to do what a
 run of the state machine does, and to be an operation of a plain queue of messages.
 */
module RingQueue {
  import opened Bytes
  import opened Options
  import opened RingRecords
  import opened RingMachine
  import opened RingSafety
  import opened RingConsumer
  import opened RingTheorems
  import opened RingRuns

  datatype SendResult = Sent | Full | TooLarge

  /** The consumer is in front of padding, and finds a padding record. */
  lemma PaddingInBuffer(s: State)
    requires Inv(s) && s.consumed < s.committed
    requires s.readPos == s.log[s.consumed].begin && s.log[s.consumed].pad >= HEADER && Skippable(s.log[s.consumed].pad)
    ensures var o, r := s.readPos % |s.buf|, s.log[s.consumed];
            && o + HEADER <= |s.buf|
            && var h := s.buf[o..o + HEADER];
               TypeIn(h) == PADDING && s.readPos < s.readPos + MessageSize(SizeIn(h)) == r.begin + r.pad < s.commitPos
  {
    hide AlignUp, MessageSize, PaddingFor, Content, HeaderBytes, Positions, Owners, Bytewise, Snapshots, Histories, Reading,
         TypeIn, SizeIn;
    Basics(s);
    var r := s.log[s.consumed];
    StreamAt(s);
    FrontShape(s);
    Stretch(s, s.readPos, HEADER);
    HeaderRoundTrip(PADDING, r.pad - HEADER);
    PaddingIsSkippedExactly(r.pad);
  }

  /** The consumer is in front of a message, and finds it whole. */
  lemma MessageInBuffer(s: State)
    requires Inv(s) && s.consumed < s.committed
    requires s.readPos == s.log[s.consumed].begin + s.log[s.consumed].pad
    ensures var o, r := s.readPos % |s.buf|, s.log[s.consumed]; var n := |r.m.payload|;
            && o + HEADER + n <= |s.buf| && s.buf[o + HEADER..o + HEADER + n] == r.m.payload
            && var h := s.buf[o..o + HEADER];
               && TypeIn(h) == r.m.typ != PADDING && SizeIn(h) == n
               && s.readPos < s.readPos + MessageSize(SizeIn(h)) == End(r) <= s.commitPos
  {
    hide AlignUp, MessageSize, PaddingFor, Content, Owners, Snapshots, Histories, Reading, TypeIn, SizeIn, Bytewise;
    StreamAt(s);
    ReadBehind(s);
    UnreadDecodes(s, s.consumed);
  }

  lemma Basics(s: State)
    requires Inv(s)
    ensures 0 < |s.buf| < WORD64 && s.readPos <= s.commitPos <= s.reservePos <= s.readPos + |s.buf|
    ensures s.consumed <= s.committed <= |s.log|
    ensures s.committed == |s.log| ==> s.commitPos == s.reservePos
    ensures s.consumed == s.committed <==> s.readPos == s.commitPos
  {
    hide AlignUp, PaddingFor, Content, Owners, Bytewise, Snapshots, Histories;
    if s.consumed < s.committed {
      ReadBehind(s);
    }
  }

  /** The buffer with a padding record, if the gap holds one, and the message record copied into a reserved range. */
  function BothWritten(buf: seq<byte>, reserve: nat, pad: nat, m: Message): (b: seq<byte>)
    requires ValidMessage(m) && |buf| > 0
    requires reserve % |buf| + pad <= |buf| && (reserve + pad) % |buf| + SizeOf(m) <= |buf|
    ensures |b| == |buf|
  {
    Overwrite(if pad >= HEADER then Overwrite(buf, reserve % |buf|, PaddingBytes(pad)) else buf,
              (reserve + pad) % |buf|, RecordBytes(m))
  }

  /** A cell that neither record covers is the address of no written byte. */
  lemma OutsideBoth(begin: nat, pad: nat, total: nat, cap: nat, a: nat)
    requires cap > 0 && pad <= total
    requires pad >= HEADER ==> !(begin % cap <= a < begin % cap + pad)
    requires !((begin + pad) % cap <= a < (begin + pad) % cap + (total - pad))
    ensures Outside(a, begin, pad, FirstWritten(pad), total, cap)
  {
  }

  lemma ContentHalves(m: Message, pad: nat)
    requires ValidMessage(m)
    ensures |Content(m, pad)| == pad + SizeOf(m) && |RecordBytes(m)| == SizeOf(m)
    ensures Content(m, pad)[pad..] == RecordBytes(m) && (pad >= HEADER ==> Content(m, pad)[..pad] == PaddingBytes(pad))
  {
    hide RecordBytes, PaddingBytes;
  }

  /** The buffer after both records were copied is the machine's. */
  lemma CopiedAlike(s: State, t: State, pad: nat, m: Message)
    requires Inv(t) && |t.buf| == |s.buf| > 0 && t.readPos <= s.reservePos && ValidMessage(m)
    requires t.consumed <= |s.log| < t.committed <= |t.log| == |s.log| + 1
    requires t.log[|s.log|].begin == s.reservePos && t.log[|s.log|].pad == pad && t.log[|s.log|].m == m
    requires var o, mo := s.reservePos % |s.buf|, (s.reservePos + pad) % |s.buf|;
             o + pad <= |s.buf| && mo + SizeOf(m) <= |s.buf| && (pad > 0 ==> mo + SizeOf(m) <= o)
    requires forall a :: 0 <= a < |s.buf| && Outside(a, s.reservePos, pad, FirstWritten(pad), pad + SizeOf(m), |s.buf|) ==>
                           t.buf[a] == s.buf[a]
    ensures BothWritten(s.buf, s.reservePos, pad, m) == t.buf
  {
    hide AlignUp, MessageSize, Content, Inv, Outside, Overwrite, PaddingBytes, RecordBytes, FirstWritten;
    var o, mo := s.reservePos % |s.buf|, (s.reservePos + pad) % |s.buf|;
    var x := if pad >= HEADER then PaddingBytes(pad) else [];
    forall k | 0 <= k < |RecordBytes(m)|
      ensures t.buf[mo + k] == RecordBytes(m)[k]
    {
      CellOfRecord(t, |s.log|, k);
    }
    forall k | 0 <= k < |x|
      ensures t.buf[o + k] == x[k]
    {
      CellOfPadding(t, |s.log|, k);
    }
    forall a | 0 <= a < |s.buf| && !(o <= a < o + |x|) && !(mo <= a < mo + SizeOf(m))
      ensures t.buf[a] == s.buf[a]
    {
      OutsideBoth(s.reservePos, pad, pad + SizeOf(m), |s.buf|, a);
    }
    TwoWrites(s.buf, t.buf, o, mo, x, RecordBytes(m));
    OverwriteNothing(s.buf, o);
  }

  /** A buffer that holds x at o and y at mo, and is as it was elsewhere, is what the two copies leave. */
  lemma TwoWrites(b: seq<byte>, c: seq<byte>, o: nat, mo: nat, x: seq<byte>, y: seq<byte>)
    requires |b| == |c| && o + |x| <= |b| && mo + |y| <= |b|
    requires x == [] || o + |x| <= mo || mo + |y| <= o
    requires forall k :: 0 <= k < |x| ==> c[o + k] == x[k]
    requires forall k :: 0 <= k < |y| ==> c[mo + k] == y[k]
    requires forall a :: 0 <= a < |b| && !(o <= a < o + |x|) && !(mo <= a < mo + |y|) ==> c[a] == b[a]
    ensures Overwrite(Overwrite(b, o, x), mo, y) == c
  {
    hide Overwrite;
    forall a | 0 <= a < |b|
      ensures Overwrite(Overwrite(b, o, x), mo, y)[a] == c[a]
    {
      OverwriteAt(b, o, x, a);
      OverwriteAt(Overwrite(b, o, x), mo, y, a);
      if mo <= a < mo + |y| {
        assert c[mo + (a - mo)] == y[a - mo];
      } else if o <= a < o + |x| {
        assert c[o + (a - o)] == x[a - o];
      }
    }
  }

  lemma CellOfRecord(t: State, i: nat, k: nat)
    requires Inv(t) && t.consumed <= i < t.committed <= |t.log| && t.readPos <= t.log[i].begin
    requires ValidMessage(t.log[i].m) && k < SizeOf(t.log[i].m)
    ensures var r := t.log[i]; var a := (r.begin + r.pad) % |t.buf| + k;
            a < |t.buf| && t.buf[a] == RecordBytes(r.m)[k]
  {
    hide AlignUp, MessageSize, Content, Positions, Owners, Bytewise, Snapshots, Histories, Reading, RecordBytes, PaddingBytes;
    var r := t.log[i];
    ContentHalves(r.m, r.pad);
    CellOfContent(t, i, r.pad + k);
    assert Content(r.m, r.pad)[r.pad..][k] == Content(r.m, r.pad)[r.pad + k];
  }

  lemma CellOfPadding(t: State, i: nat, k: nat)
    requires Inv(t) && t.consumed <= i < t.committed <= |t.log| && t.readPos <= t.log[i].begin
    requires ValidMessage(t.log[i].m) && t.log[i].pad >= HEADER && k < t.log[i].pad
    ensures var r := t.log[i]; var a := r.begin % |t.buf| + k;
            a < |t.buf| && t.buf[a] == PaddingBytes(r.pad)[k]
  {
    hide AlignUp, MessageSize, Content, Positions, Owners, Bytewise, Snapshots, Histories, Reading, RecordBytes, PaddingBytes;
    var r := t.log[i];
    ContentHalves(r.m, r.pad);
    CellOfContent(t, i, k);
    assert Content(r.m, r.pad)[..r.pad][k] == Content(r.m, r.pad)[k];
  }

  /** In a state with reservation i committed and unread, its k-th byte is at its address. */
  lemma CellOfContent(t: State, i: nat, k: nat)
    requires Inv(t) && t.consumed <= i < t.committed && t.readPos <= t.log[i].begin
    requires FirstWritten(t.log[i].pad) <= k < t.log[i].pad + SizeOf(t.log[i].m)
    ensures var r := t.log[i]; var a := Address(r.begin, r.pad, k, |t.buf|);
            a < |t.buf| && k < |Content(r.m, r.pad)| && t.buf[a] == Content(r.m, r.pad)[k]
  {
    hide AlignUp, PaddingFor, Content, Owners, Snapshots, Histories, Reading, Written, MessageSize, FirstWritten, Tile;
    var r := t.log[i];
    assert Tile(t.log, t.stream, |t.buf|, i);
    AddressIsCell(t.log, t.stream, |t.buf|, i, k);
    BoundsGrow(t.log, t.stream, |t.buf|, i + 1, t.committed);
    assert t.readPos <= r.begin + k < t.commitPos;
    assert Cell(t.buf, r.begin + k) == t.stream[r.begin + k];
    TileContent(t.log, t.stream, |t.buf|, i, k);
  }

  lemma TileContent(log: seq<Reservation>, stream: seq<byte>, capacity: nat, i: nat, k: nat)
    requires i < |log| && 0 < capacity && Tile(log, stream, capacity, i)
    requires FirstWritten(log[i].pad) <= k < log[i].pad + SizeOf(log[i].m)
    ensures var r := log[i];
            && r.begin + k < |stream| && |Content(r.m, r.pad)| == r.pad + SizeOf(r.m)
            && stream[r.begin + k] == Content(r.m, r.pad)[k]
  {
    hide AlignUp, PaddingFor, Content, FirstWritten, MessageSize;
    var r := log[i];
    ContentLength(r.m, r.pad);
    var f := FirstWritten(r.pad);
    assert stream[r.begin + f..End(r)][k - f] == Content(r.m, r.pad)[f..][k - f];
  }

  lemma RecordPieces(m: Message)
    requires ValidMessage(m)
    ensures |HeaderBytes(m.typ, |m.payload|)| == HEADER && HEADER + |m.payload| <= SizeOf(m)
    ensures RecordBytes(m) == HeaderBytes(m.typ, |m.payload|) + m.payload + Zeros(SizeOf(m) - HEADER - |m.payload|)
  {
    SizeCoversPayload(|m.payload|);
  }

  lemma ThreePieces(b: seq<byte>, o: nat, x: seq<byte>, y: seq<byte>, z: seq<byte>)
    requires o + |x| + |y| + |z| <= |b|
    ensures Overwrite(Overwrite(Overwrite(b, o, x), o + |x|, y), o + |x| + |y|, z) == Overwrite(b, o, x + y + z)
  {
    hide Overwrite;
    OverwriteBehind(b, o, x, y);
    OverwriteBehind(b, o, x + y, z);
  }

  class RingQueue {
    const buffer: array<byte>
    const interestedType: nat
    var reservePos: nat
    var commitPos: nat
    var readPos: nat
    ghost var model: State

    /** The ring is a state of the machine with nobody inside a call. */
    ghost predicate Valid()
      reads this, buffer
    {
      && model.buf == buffer[..] && model.interested == interestedType
      && model.reservePos == reservePos && model.commitPos == commitPos && model.readPos == readPos
      && Inv(model) && model.consumer.CIdle? && model.committed == |model.log|
      && forall p :: 0 <= p < |model.producers| ==> model.producers[p].pc.Idle?
    }

    /** The messages committed and not read. */
    ghost function Waiting(): seq<Message>
      reads this, buffer
      requires Valid()
    {
      Messages(model.log[model.consumed..])
    }

    constructor (size: nat, ghost producers: nat, interested: nat)
      requires 0 < size < WORD64
      ensures Valid() && fresh(buffer) && buffer.Length == size && interestedType == interested
      ensures Waiting() == [] && |model.producers| == producers
    {
      buffer := new byte[size](_ => 0);
      interestedType := interested;
      reservePos, commitPos, readPos := 0, 0, 0;
      new;
      model := Init(producers, buffer[..], interested);
      InitInv(producers, buffer[..], interested);
    }

    method WritePaddingRecord(offset: nat, paddingSize: nat)
      requires paddingSize >= HEADER && offset + paddingSize <= buffer.Length
      modifies buffer
      ensures buffer[..] == Overwrite(old(buffer[..]), offset, PaddingBytes(paddingSize))
      ensures PaddingBytes(paddingSize) == HeaderBytes(0, paddingSize - 8) + Zeros(paddingSize - 8)
    {
      hide Le, Overwrite;
      var header := HeaderBytes(PADDING, paddingSize - HEADER);
      OverwriteBehind(buffer[..], offset, header, Zeros(paddingSize - HEADER));
      CopyInto(buffer, offset, header);
      if paddingSize > HEADER {
        CopyInto(buffer, offset + HEADER, Zeros(paddingSize - HEADER));
      } else {
        assert header + Zeros(0) == header;
      }
    }

    method WriteMessageRecord(offset: nat, m: Message)
      requires ValidMessage(m) && offset + SizeOf(m) <= buffer.Length
      modifies buffer
      ensures buffer[..] == Overwrite(old(buffer[..]), offset, RecordBytes(m))
    {
      hide SizeOf, HeaderBytes, RecordBytes, Overwrite;
      RecordPieces(m);
      var header := HeaderBytes(m.typ, |m.payload|);
      var paddingBytes := SizeOf(m) - HEADER - |m.payload|;
      ThreePieces(buffer[..], offset, header, m.payload, Zeros(paddingBytes));
      CopyInto(buffer, offset, header);
      if m.payload != [] {
        CopyInto(buffer, offset + HEADER, m.payload);
      } else {
        OverwriteNothing(buffer[..], offset + HEADER);
      }
      if paddingBytes != 0 {
        CopyInto(buffer, offset + HEADER + |m.payload|, Zeros(paddingBytes));
      } else {
        OverwriteNothing(buffer[..], offset + HEADER + |m.payload|);
      }
    }

    /** compare_exchange_weak on reservePos; `spurious` makes it fail although the values match. */
    method CompareExchangeReserve(expected: nat, desired: nat, spurious: bool) returns (ok: bool)
      modifies this`reservePos
      ensures ok == (!spurious && old(reservePos) == expected)
      ensures reservePos == if ok then desired else old(reservePos)
    {
      ok := !spurious && reservePos == expected;
      if ok { reservePos := desired; }
    }

    /**
     The loop of PublishReservedRange, with the other producers as an oracle: `env[k]` is the commit
     position as the k-th compare_exchange_weak finds it, and `fails(k)` makes that fail although the
     values match. It publishes at the first one that finds `myBegin` and does not fail; until the
     oracle shows one it goes on.
     */
    method PublishReservedRange(myBegin: nat, myEnd: nat, env: seq<nat>, fails: nat -> bool) returns (published: bool, used: nat)
      modifies this`commitPos
      ensures used <= |env| && forall k :: 0 <= k < used && (k < used - 1 || !published) ==> env[k] != myBegin || fails(k)
      ensures published ==> used > 0 && env[used - 1] == myBegin && !fails(used - 1) && commitPos == myEnd
      ensures !published ==> used == |env| && (env != [] ==> commitPos == env[used - 1])
    {
      used := 0;
      while used < |env|
        invariant used <= |env| && forall k :: 0 <= k < used ==> env[k] != myBegin || fails(k)
        invariant used > 0 ==> commitPos == env[used - 1]
      {
        commitPos := env[used];
        used := used + 1;
        if commitPos == myBegin && !fails(used - 1) {
          commitPos := myEnd;
          return true, used;
        }
      }
      return false, used;
    }

    /** hw-5/mpsc_queue.cpp, lines 209-215: what a producer writes into the range it reserved. */
    method WriteReserved(reserve: nat, paddingSize: nat, m: Message)
      requires ValidMessage(m) && buffer.Length > 0
      requires reserve % buffer.Length + paddingSize <= buffer.Length
      requires (reserve + paddingSize) % buffer.Length + SizeOf(m) <= buffer.Length
      modifies buffer
      ensures buffer[..] == BothWritten(old(buffer[..]), reserve, paddingSize, m)
    {
      hide AlignUp, MessageSize, Le, PaddingBytes, RecordBytes, Overwrite;
      if paddingSize >= HEADER {
        WritePaddingRecord(reserve % buffer.Length, paddingSize);
      }
      WriteMessageRecord((reserve + paddingSize) % buffer.Length, m);
    }

    /**
     TrySend by producer p. `failures` is how often its compare-exchanges fail spuriously. A valid
     message that can fit at all is appended if its padded record fits behind the read position, and
     refused otherwise, when nothing changes.
     */
    method TrySend(ghost p: nat, m: Message, failures: nat) returns (result: SendResult, ghost acts: seq<Action>)
      requires Valid() && p < |model.producers| && ValidMessage(m)
      modifies this, buffer
      ensures Valid() && Leads(old(model), acts, model) && |model.producers| == |old(model.producers)|
      ensures result == if SizeOf(m) > buffer.Length then TooLarge
                        else if old(reservePos) + Required(m, old(reservePos), buffer.Length)
                                <= old(readPos) + buffer.Length then Sent
                        else Full
      ensures Waiting() == if result.Sent? then old(Waiting()) + [m] else old(Waiting())
      ensures !result.Sent? ==> model == old(model)
      ensures model.delivered == old(model.delivered)
    {
      hide AlignUp, MessageSize, PaddingFor, Admits, Inv, BothWritten, Messages, Leads;
      Basics(model);
      acts := [];
      LeadsNowhere(model);
      var messageSize := SizeOf(m);
      if messageSize > buffer.Length { return TooLarge, acts; }
      var left := failures;
      while true
        invariant Valid() && model == old(model)
        decreases left
      {
        var read := readPos;
        var reserve := reservePos;
        var paddingSize := PaddingFor(reserve, messageSize, buffer.Length);
        AdmitsWithin(buffer.Length, read, reserve, paddingSize + messageSize);
        if !Admits(buffer.Length, read, reserve, paddingSize + messageSize) {
          return Full, acts;
        }
        assert Required(m, reserve, buffer.Length) == paddingSize + messageSize;
        ghost var sends, t := SendTripWrites(model, p, m);
        var ok := CompareExchangeReserve(reserve, reserve + paddingSize + messageSize, left > 0);
        if ok {
          acts := sends;
          WriteReserved(reserve, paddingSize, m);
          var spurious := left;
          var published, used := PublishReservedRange(reserve, reserve + paddingSize + messageSize,
                                                      seq(spurious + 1, _ => reserve), k => k < spurious);
          SentWaits(model, t, p, m);
          model := t;
          return Sent, acts;
        }
        left := left - 1;
      }
    }

    /**
     TryReceive, on a ring of a size that works: None on an empty queue; otherwise it consumes exactly
     the head, and returns it, byte for byte, if it is a Stop (type 3), if the consumer asked for All
     (4), or if it is of the type the consumer asked for.
     */
    method TryReceive() returns (result: Option<Message>, ghost acts: seq<Action>)
      requires Valid() && Works(buffer.Length)
      modifies this
      ensures Valid() && Leads(old(model), acts, model) && |model.producers| == |old(model.producers)|
      ensures old(Waiting()) == [] ==> result == None && model == old(model)
      ensures old(Waiting()) != [] ==>
                && Waiting() == old(Waiting())[1..]
                && var m := old(Waiting())[0];
                   result == if m.typ == 3 || interestedType == 4 || m.typ == interestedType then Some(m) else None
      ensures model.delivered == old(model.delivered) + (if result.Some? then [result.value] else [])
    {
      hide AlignUp, MessageSize, Inv, Messages, Leads, TypeIn, SizeIn, Wanted, Works, Skippable, Bound, End;
      Basics(model);
      CallBegins(model);
      ReceivedWaits(model);
      ghost var st := Apply(model, CBegin);
      acts := [CBegin];
      while true
        invariant model == old(model) && buffer[..] == st.buf && readPos == st.readPos && commitPos == st.commitPos
        invariant reservePos == st.reservePos
        invariant st == model.(readPos := st.readPos, consumer := st.consumer) && st.consumer.CLoop?
        invariant Inv(st) && Leads(model, acts, st)
        decreases commitPos - readPos
      {
        Basics(st);
        var read := readPos;
        var commit := commitPos;
        if read == commit {
          LeadsNowhere(model);
          return None, [];
        }
        var offset := read % buffer.Length;
        var tailSpace := buffer.Length - offset;
        FoundInBuffer(st);
        if tailSpace < HEADER {
          ghost var jump, behind := ParseTurn(st);
          LeadsThen(model, acts, st, jump, behind);
          acts, st := acts + jump, behind;
          readPos := read + tailSpace;
          continue;
        }
        var header := buffer[offset..offset + HEADER];
        var typ, size := TypeIn(header), SizeIn(header);
        var next := read + MessageSize(size);
        if next > commit {
          assert false;  // the return on a record that is not committed whole
        }
        ghost var turn, t := ParseTurn(st);
        LeadsThen(model, acts, st, turn, t);
        acts := acts + turn;
        if typ == PADDING {
          readPos := next;
          st := t;
        } else {
          result := None;
          ghost var m := model.log[model.consumed].m;
          assert typ == m.typ && buffer[offset + HEADER..offset + HEADER + size] == m.payload;
          WantedExactly(typ, interestedType);
          if Wanted(typ, interestedType) {
            result := Some(Message(typ, buffer[offset + HEADER..offset + HEADER + size]));
          }
          ghost var last, u := FinishTrip(t);
          LeadsThen(model, acts, t, last, u);
          acts := acts + last;
          readPos := next;
          model := u;
          return;
        }
      }
    }

    /**
     Receive: takes messages off the queue until it meets one its consumer is interested in, and
     returns that; the messages before it are gone. None where the source would go on waiting: no
     message it is interested in was there, and none is left.
     */
    method Receive() returns (result: Option<Message>, ghost skipped: nat)
      requires Valid() && Works(buffer.Length)
      modifies this
      ensures Valid() && skipped <= |old(Waiting())|
      ensures forall m :: m in old(Waiting())[..skipped] ==> m.typ != 3 && interestedType != 4 && m.typ != interestedType
      ensures result.None? ==> skipped == |old(Waiting())| && Waiting() == []
      ensures result.Some? ==>
                && skipped < |old(Waiting())| && result.value == old(Waiting())[skipped]
                && (result.value.typ == 3 || interestedType == 4 || result.value.typ == interestedType)
                && Waiting() == old(Waiting())[skipped + 1..]
      ensures model.delivered == old(model.delivered) + (if result.Some? then [result.value] else [])
    {
      hide AlignUp, MessageSize, Inv, Messages, Leads, Works;
      result, skipped := None, 0;
      ghost var was := Waiting();
      Basics(model);
      EmptyWaits(model);
      while readPos != commitPos
        invariant Valid() && result == None && model.delivered == old(model.delivered)
        invariant readPos == commitPos <==> Waiting() == []
        invariant skipped <= |was| && Waiting() == was[skipped..]
        invariant forall k :: 0 <= k < skipped ==>
                    was[k].typ != 3 && interestedType != 4 && was[k].typ != interestedType
        decreases |Waiting()|
      {
        ghost var acts;
        assert Waiting()[0] == was[skipped];
        result, acts := TryReceive();
        Basics(model);
        EmptyWaits(model);
        assert Waiting() == was[skipped + 1..];
        if result.Some? { return; }
        skipped := skipped + 1;
      }
    }
  }

  /** The room a message takes, spelled out: its record rounded up to 8, and a tail that is too short for it. */
  lemma RoomExactly(m: Message, reserve: nat, capacity: nat)
    requires ValidMessage(m) && capacity > 0
    ensures SizeOf(m) == (|m.payload| + 15) / 8 * 8
    ensures SizeOf(m) <= capacity ==>
              var tail := capacity - reserve % capacity;
              Required(m, reserve, capacity) == if tail < SizeOf(m) then tail + SizeOf(m) else SizeOf(m)
  {
    hide MessageSize, PaddingFor;
    RoundedExactly(|m.payload|);
    if SizeOf(m) <= capacity { SmallTail(reserve, SizeOf(m), capacity); }
  }

  lemma RoundedExactly(length: nat)
    requires length <= MAX_PAYLOAD
    ensures MessageSize(length) == (length + 15) / 8 * 8 && 8 <= MessageSize(length) < WORD32
  {
    hide MessageSize;
    SizeCoversPayload(length);
    var k := MessageSize(length) / 8;
    assert MessageSize(length) == 8 * k;
  }

  lemma SmallTail(pos: nat, size: nat, capacity: nat)
    requires 0 < size <= capacity && size < WORD32
    ensures PaddingFor(pos, size, capacity) == if capacity - pos % capacity < size then capacity - pos % capacity else 0
  {
  }

  lemma WantedExactly(typ: nat, interested: nat)
    ensures Wanted(typ, interested) <==> typ == 3 || interested == 4 || typ == interested
  {
  }

  lemma CallBegins(s: State)
    requires Inv(s) && s.consumer.CIdle?
    ensures Enabled(s, CBegin) && Inv(Apply(s, CBegin)) && Leads(s, [CBegin], Apply(s, CBegin))
    ensures Apply(s, CBegin) == s.(consumer := CLoop(0))
  {
    hide AlignUp, PaddingFor, Content, Tiled, Owners, Bytewise, Reading, Snapshots, Histories;
    StepInv(s, CBegin);
    LeadsOne(s, CBegin);
  }

  lemma FoundInBuffer(s: State)
    requires Inv(s) && s.readPos != s.commitPos && Works(|s.buf|)
    ensures s.consumed < s.committed <= |s.log| && |s.buf| > 0 && Skippable(s.log[s.consumed].pad)
    ensures var o, r := s.readPos % |s.buf|, s.log[s.consumed]; var n := |r.m.payload|;
            if |s.buf| - o < HEADER then
              s.readPos == r.begin && r.pad > 0 && s.readPos + (|s.buf| - o) == r.begin + r.pad <= s.commitPos
            else
              && o + HEADER <= |s.buf|
              && var h := s.buf[o..o + HEADER]; var next := s.readPos + MessageSize(SizeIn(h));
                 && s.readPos < next <= s.commitPos
                 && if s.readPos == r.begin && r.pad > 0 then TypeIn(h) == PADDING && next == r.begin + r.pad
                    else
                      && TypeIn(h) == r.m.typ != PADDING && SizeIn(h) == n && next == End(r)
                      && o + HEADER + n <= |s.buf| && s.buf[o + HEADER..o + HEADER + n] == r.m.payload
  {
    hide AlignUp, MessageSize, PaddingFor, Content, Positions, Owners, Bytewise, Snapshots, Histories, Reading, TypeIn, SizeIn,
         Works, Skippable;
    Basics(s);
    ReadBehind(s);
    FrontShape(s);
    StreamAt(s);
    WorksSkipOk(s, CParse);
    FrontSkips(s);
    var r := s.log[s.consumed];
    if s.readPos == r.begin && r.pad >= HEADER {
      PaddingInBuffer(s);
    } else if s.readPos == r.begin + r.pad {
      MessageInBuffer(s);
    }
  }

  lemma FrontSkips(s: State)
    requires Inv(s) && Works(|s.buf|) && s.consumed < s.committed
    ensures Skippable(s.log[s.consumed].pad)
  {
    hide AlignUp, PaddingFor, Content, Owners, Bytewise, Snapshots, Histories, Reading, Tile, Works, Skippable;
    assert Tile(s.log, s.stream, |s.buf|, s.consumed);
    TileSkips(s.log, s.stream, |s.buf|, s.consumed);
  }

  lemma EmptyWaits(s: State)
    requires s.consumed <= |s.log|
    ensures Messages(s.log[s.consumed..]) == [] <==> s.consumed == |s.log|
  {
  }

  /** A whole send of the machine, with the buffer it leaves. */
  lemma SendTripWrites(s: State, p: nat, m: Message) returns (acts: seq<Action>, t: State)
    requires Inv(s) && s.committed == |s.log| && p < |s.producers| && s.producers[p].pc.Idle?
    requires ValidMessage(m) && SizeOf(m) <= |s.buf|
    requires s.reservePos + Required(m, s.reservePos, |s.buf|) <= s.readPos + |s.buf|
    ensures Leads(s, acts, t) && Inv(t)
    ensures var pad := PaddingFor(s.reservePos, SizeOf(m), |s.buf|); var end := s.reservePos + pad + SizeOf(m);
            && s.reservePos % |s.buf| + pad <= |s.buf| && (s.reservePos + pad) % |s.buf| + SizeOf(m) <= |s.buf|
            && t == s.(buf := BothWritten(s.buf, s.reservePos, pad, m), stream := t.stream,
                       producers := s.producers[p := Producer(Idle, s.producers[p].sent + [m])],
                       reservePos := end, commitPos := end,
                       log := s.log + [Reservation(p, m, s.reservePos, pad)], committed := s.committed + 1)
  {
    hide AlignUp, MessageSize, PaddingFor, Content, Owners, Bytewise, Reading, Snapshots, Histories, Outside, Tiled, BothWritten;
    acts, t := SendTrip(s, p, m);
    PlacedInside(s, m);
    CopiedAlike(s, t, PaddingFor(s.reservePos, SizeOf(m), |s.buf|), m);
  }

  lemma SentWaits(s: State, t: State, p: nat, m: Message)
    requires Inv(s) && s.committed == |s.log| && t.consumed == s.consumed
    requires t.log == s.log + [Reservation(p, m, s.reservePos, PaddingFor(s.reservePos, SizeOf(m), |s.buf|))]
    ensures Messages(t.log[t.consumed..]) == Messages(s.log[s.consumed..]) + [m]
  {
    hide AlignUp, PaddingFor, Tiled;
    assert t.log[t.consumed..] == s.log[s.consumed..] + [t.log[|s.log|]];
  }

  lemma ReceivedWaits(s: State)
    requires s.consumed <= |s.log|
    ensures s.consumed < |s.log| ==> Messages(s.log[s.consumed..]) == [s.log[s.consumed].m] + Messages(s.log[s.consumed + 1..])
    ensures s.consumed == |s.log| ==> Messages(s.log[s.consumed..]) == []
  {
  }

  lemma OverwriteNothing(buf: seq<byte>, offset: nat)
    requires offset <= |buf|
    ensures Overwrite(buf, offset, []) == buf
  {
  }

  /** Where TrySend's two records go, in the buffer of a state with nothing in flight. */
  lemma PlacedInside(s: State, m: Message)
    requires Positions(s) && s.committed == |s.log| && ValidMessage(m) && SizeOf(m) <= |s.buf|
    ensures var pad, o := PaddingFor(s.reservePos, SizeOf(m), |s.buf|), s.reservePos % |s.buf|;
            var mo := (s.reservePos + pad) % |s.buf|;
            && o + pad <= |s.buf| && mo + SizeOf(m) <= |s.buf|
            && (pad > 0 && pad + SizeOf(m) <= |s.buf| ==> mo + SizeOf(m) <= o)
  {
    hide AlignUp, PaddingFor, Tile;
    SizeCoversPayload(|m.payload|);
    Placement(s.reservePos, SizeOf(m), |s.buf|);
  }
}
