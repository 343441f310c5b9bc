/**
 The consumer of the byte ring: what it decodes from the buffer, and that the invariant survives
 all of its steps and therefore every run.
 */
module RingConsumer {
  import opened Bytes
  import opened RingRecords
  import opened RingMachine
  import opened RingSafety

  // ---------- The bytes of a reservation ----------

  lemma ContentParts(m: Message, pad: nat)
    requires ValidMessage(m)
    ensures var c, n := Content(m, pad), |m.payload|;
            && |c| == pad + SizeOf(m) && SizeOf(m) >= HEADER + n
            && (pad >= HEADER ==> c[..HEADER] == HeaderBytes(PADDING, pad - HEADER))
            && c[pad..pad + HEADER] == HeaderBytes(m.typ, n)
            && c[pad + HEADER..pad + HEADER + n] == m.payload
  {
    hide AlignUp, Le, Zeros;
    SizeCoversPayload(|m.payload|);
  }

  /** Bytes a to b of a reservation, as far as they are written. */
  lemma TileBytes(log: seq<Reservation>, stream: seq<byte>, capacity: nat, i: nat, a: nat, b: nat)
    requires i < |log| && 0 < capacity && Tile(log, stream, capacity, i)
    requires FirstWritten(log[i].pad) <= a <= b <= |Content(log[i].m, log[i].pad)| == log[i].pad + SizeOf(log[i].m)
    ensures var r := log[i]; stream[r.begin + a..r.begin + b] == Content(r.m, r.pad)[a..b]
  {
    hide AlignUp, PaddingFor, Content, ValidMessage, SizeOf, FirstWritten;
    var r, f := log[i], FirstWritten(log[i].pad);
    SliceOfSlice(stream, r.begin + f, End(r), a - f, b - f);
    var c := Content(r.m, r.pad);
    assert c[f..] == c[f..|c|];
    SliceOfSlice(c, f, |c|, a - f, b - f);
  }

  /** The parts of the i-th reservation's bytes, at their positions. */
  lemma StreamRecord(log: seq<Reservation>, stream: seq<byte>, capacity: nat, i: nat)
    requires i < |log| && 0 < capacity && Tile(log, stream, capacity, i)
    ensures var r := log[i]; var x, n := r.begin + r.pad, |r.m.payload|;
            && x + HEADER + n <= End(r) <= |stream|
            && (r.pad >= HEADER ==> stream[r.begin..r.begin + HEADER] == HeaderBytes(PADDING, r.pad - HEADER))
            && stream[x..x + HEADER] == HeaderBytes(r.m.typ, n)
            && stream[x + HEADER..x + HEADER + n] == r.m.payload
  {
    hide AlignUp, PaddingFor, Content, HeaderBytes;
    var r := log[i];
    ContentParts(r.m, r.pad);
    var n := |r.m.payload|;
    TileBytes(log, stream, capacity, i, r.pad, r.pad + HEADER);
    TileBytes(log, stream, capacity, i, r.pad + HEADER, r.pad + HEADER + n);
    if r.pad >= HEADER {
      TileBytes(log, stream, capacity, i, 0, HEADER);
    }
  }

  /** The first unread record, as the stream has it. */
  lemma StreamAt(s: State)
    requires Positions(s) && s.consumed < s.committed
    ensures var r := s.log[s.consumed]; var x, n := r.begin + r.pad, |r.m.payload|;
            && End(r) <= s.commitPos <= |s.stream| && x + HEADER + n <= End(r)
            && (r.pad >= HEADER ==> s.stream[r.begin..r.begin + HEADER] == HeaderBytes(PADDING, r.pad - HEADER))
            && s.stream[x..x + HEADER] == HeaderBytes(r.m.typ, n)
            && s.stream[x + HEADER..x + HEADER + n] == r.m.payload
  {
    hide AlignUp, PaddingFor, Content, HeaderBytes;
    assert Tile(s.log, s.stream, |s.buf|, s.consumed);
    StreamRecord(s.log, s.stream, |s.buf|, s.consumed);
    BoundsGrow(s.log, s.stream, |s.buf|, s.consumed + 1, s.committed);
  }

  lemma FrontShape(s: State)
    requires Positions(s) && s.consumed < s.committed
    ensures var r := s.log[s.consumed];
            && (s.readPos == r.begin || s.readPos == r.begin + r.pad)
            && 0 < |s.buf| && r.begin + r.pad < End(r)
            && (r.pad == 0 || r.pad >= HEADER ==> r.begin % |s.buf| + HEADER <= |s.buf|)
            && (r.pad > 0 ==> r.begin % |s.buf| + r.pad == |s.buf|)
            && (r.begin + r.pad) % |s.buf| + HEADER + |r.m.payload| <= |s.buf|
            && r.pad < WORD32 - 8
            && r.m.typ != PADDING && r.m.typ < WORD32 && |r.m.payload| < WORD32
            && End(r) == r.begin + r.pad + MessageSize(|r.m.payload|)
  {
    hide AlignUp, MessageSize, PaddingFor, Content, Tile, SizeOf, ValidMessage;
    assert Tile(s.log, s.stream, |s.buf|, s.consumed);
    RecordShape(s.log, s.stream, |s.buf|, s.consumed);
  }

  lemma RecordShape(log: seq<Reservation>, stream: seq<byte>, capacity: nat, i: nat)
    requires i < |log| && 0 < capacity && Tile(log, stream, capacity, i)
    ensures var r := log[i];
            && r.begin == Bound(log, i) && r.begin + r.pad < End(r)
            && (r.pad == 0 || r.pad >= HEADER ==> r.begin % capacity + HEADER <= capacity)
            && (r.pad > 0 ==> r.begin % capacity + r.pad == capacity)
            && (r.begin + r.pad) % capacity + HEADER + |r.m.payload| <= capacity
            && r.pad < WORD32 - 8
            && r.m.typ != PADDING && r.m.typ < WORD32 && |r.m.payload| < WORD32
            && End(r) == r.begin + r.pad + MessageSize(|r.m.payload|)
  {
    hide AlignUp, MessageSize, PaddingFor, Content, Bound, FirstWritten;
    var r := log[i];
    assert ValidMessage(r.m) && r.begin == Bound(log, i);
    hide Tile;
    TileShape(log, stream, capacity, i);
  }

  lemma SliceOfSlice(t: seq<byte>, a: nat, b: nat, i: nat, j: nat)
    requires a <= b <= |t| && i <= j <= b - a
    ensures t[a..b][i..j] == t[a + i..a + j]
  {
    forall k | 0 <= k < j - i
      ensures t[a..b][i..j][k] == t[a + i..a + j][k]
    {
    }
  }

  /** A committed byte that does not wrap is fetched from where the source looks for it. */
  lemma FetchCommitted(s: State, base: nat, k: nat)
    requires Bytewise(s) && s.readPos <= base && base + k < s.commitPos
    requires base % |s.buf| + k < |s.buf|
    ensures Fetch(s.buf, base % |s.buf| + k) == s.stream[base + k]
  {
    hide Written;
    ModStep(base, k, |s.buf|);
    assert Cell(s.buf, base + k) == s.stream[base + k];
  }

  // ---------- Steps ----------

  /** The rest of the invariant does not depend on where the consumer is. */
  lemma ConsumerMoves(s: State, c: Consumer)
    requires Inv(s) && Reading(s.(consumer := c))
    ensures Inv(s.(consumer := c))
  {
    hide AlignUp, PaddingFor, Content, Tiled, Cell, Kept, SentBy, Bound;
    var s' := s.(consumer := c);
    forall p | 0 <= p < |s.producers|
      ensures Owned(s', p) && Written(s', p) && Loaded(s', p)
    {
      assert Owned(s, p) && Written(s, p) && Loaded(s, p);
    }
    forall i | s.committed <= i < |s.log|
      ensures Owner(s', i)
    {
      assert Owner(s, i);
    }
  }

  /** Advancing the read position within the committed bytes only forgets cells. */
  lemma ReadAdvances(s: State, s': State)
    requires Inv(s) && s' == s.(readPos := s'.readPos, consumer := s'.consumer, consumed := s'.consumed, delivered := s'.delivered)
    requires s.readPos <= s'.readPos <= s.commitPos && Positions(s') && Reading(s')
    requires s'.delivered == Kept(s'.log[..s'.consumed], s.interested)
    ensures Inv(s')
  {
    hide AlignUp, PaddingFor, Content, Tiled, Kept, SentBy, Bound, Reading;
    forall p | 0 <= p < |s.producers|
      ensures Owned(s', p) && Written(s', p) && Loaded(s', p)
    {
      assert Owned(s, p) && Written(s, p) && Loaded(s, p);
    }
    forall i | s.committed <= i < |s.log|
      ensures Owner(s', i)
    {
      assert Owner(s, i);
    }
  }

  /** The tail is too short for a header exactly in front of a gap that is. */
  lemma ShortTail(s: State)
    requires Inv(s) && s.consumer.CHeader?
    ensures s.consumed < s.committed <= |s.log| && |s.buf| > 0
    ensures var c, r := s.consumer, s.log[s.consumed]; var tail := |s.buf| - c.read % |s.buf|;
            && c.read == s.readPos
            && (tail < HEADER <==> c.read == r.begin && 0 < r.pad < HEADER)
            && (tail < HEADER ==> c.read + tail == r.begin + r.pad && c.skips == 0 && c.got == [])
  {
    hide AlignUp, PaddingFor, Content, Owners, Bytewise, Snapshots, Histories, Tiled, MessageSize;
    FrontShape(s);
    FrontBegins(s);
  }

  lemma InOrder(s: State)
    requires Positions(s)
    ensures s.consumed <= s.committed <= |s.log| && s.readPos <= s.commitPos <= |s.stream| && 0 < |s.buf|
  {
  }

  lemma FrontBegins(s: State)
    requires Positions(s) && s.consumed < s.committed
    ensures s.log[s.consumed].begin == Bound(s.log, s.consumed)
  {
    hide AlignUp, PaddingFor, Content, Bound, FirstWritten;
    assert Tile(s.log, s.stream, |s.buf|, s.consumed);
  }

  /** Jumping over a tail too short for a header leads to the message behind it. */
  lemma ShortTailInv(s: State)
    requires Inv(s) && CEnabled(s, CShortTail)
    ensures Inv(Apply(s, CShortTail))
  {
    hide AlignUp, PaddingFor, Content, Owners, Bytewise, Snapshots, Tiled, MessageSize, Kept, SentBy;
    ShortTail(s);
    StreamAt(s);
    FrontBegins(s);
    ReadAdvances(s, Apply(s, CShortTail));
  }

  lemma LoadCommitInv(s: State)
    requires Inv(s) && CEnabled(s, CLoadCommit)
    ensures Inv(Apply(s, CLoadCommit))
  {
    hide AlignUp, PaddingFor, Content, Owners, Bytewise, Snapshots, Histories;
    if s.consumer.read != s.commitPos {
      if s.consumed < s.committed {
        BoundsGrow(s.log, s.stream, |s.buf|, s.consumed + 1, s.committed);
      }
    } else if s.consumer.skips == 1 {
      StreamAt(s);
    }
    ConsumerMoves(s, Apply(s, CLoadCommit).consumer);
  }

  /** The next byte of the header is fetched as it was reserved. */
  lemma HeaderByte(s: State)
    requires Inv(s) && CEnabled(s, CReadHeader)
    ensures s.consumed < s.committed <= |s.log|
    ensures var c := s.consumer; var n := |c.got|;
            && c.read == s.readPos && c.read + n < |s.stream| && c.got == s.stream[c.read..c.read + n]
            && Fetch(s.buf, c.read % |s.buf| + n) == s.stream[c.read + n]
  {
    hide AlignUp, MessageSize, PaddingFor, Content, Owners, Snapshots, Histories, Fetch, Bytewise, HeaderBytes, SizeOf, ValidMessage,
         Tiled;
    StreamAt(s);
    ShortTail(s);
    FrontShape(s);
    FetchCommitted(s, s.consumer.read, |s.consumer.got|);
  }

  lemma ReadHeaderInv(s: State)
    requires Inv(s) && CEnabled(s, CReadHeader)
    ensures Inv(Apply(s, CReadHeader))
  {
    hide Positions, Owners, Snapshots, Histories, Fetch, Bytewise;
    HeaderByte(s);
    ShortTail(s);
    ConsumerMoves(s, Apply(s, CReadHeader).consumer);
  }

  /** The header just read is that of the padding record in front of the first unread message, or the message's own. */
  lemma GotAtFront(s: State)
    requires Inv(s) && CEnabled(s, CParse)
    ensures s.consumed < s.committed <= |s.log|
    ensures var c, r := s.consumer, s.log[s.consumed];
            && c.read == s.readPos && End(r) <= c.commit
            && if s.readPos == r.begin && r.pad > 0 then
                 r.pad >= HEADER && c.got == HeaderBytes(PADDING, r.pad - HEADER) && c.skips == 0
               else c.got == HeaderBytes(r.m.typ, |r.m.payload|) && c.read == r.begin + r.pad
  {
    hide AlignUp, MessageSize, PaddingFor, Content, HeaderBytes, Owners, Snapshots, Histories, Bytewise, TypeIn, SizeIn, Tiled;
    StreamAt(s);
    FrontShape(s);
    ShortTail(s);
  }

  /** Parsing: at a padding record the consumer jumps to the message behind it; at a message it learns type and size. */
  lemma ParseDecodes(s: State)
    requires Inv(s) && CEnabled(s, CParse) && SkipOk(s, CParse)
    ensures var c, r := s.consumer, s.log[s.consumed];
            && c.read + MessageSize(SizeIn(c.got)) <= c.commit
            && if s.readPos == r.begin && r.pad > 0 then
                 TypeIn(c.got) == PADDING && c.read + MessageSize(SizeIn(c.got)) == r.begin + r.pad && c.skips == 0
               else
                 && TypeIn(c.got) == r.m.typ && SizeIn(c.got) == |r.m.payload|
                 && c.read == r.begin + r.pad && c.read + MessageSize(SizeIn(c.got)) == End(r)
  {
    hide AlignUp, MessageSize, PaddingFor, Content, HeaderBytes, Positions, Owners, Snapshots, Histories, Bytewise, Reading,
         TypeIn, SizeIn;
    GotAtFront(s);
    var c, r := s.consumer, s.log[s.consumed];
    FrontShape(s);
    if s.readPos == r.begin && r.pad > 0 {
      HeaderRoundTrip(PADDING, r.pad - HEADER);
      PaddingIsSkippedExactly(r.pad);
    } else {
      HeaderRoundTrip(r.m.typ, |r.m.payload|);
    }
  }

  lemma ParseInv(s: State)
    requires Inv(s) && CEnabled(s, CParse) && SkipOk(s, CParse)
    ensures Inv(ApplyParse(s))
  {
    hide AlignUp, PaddingFor, Content, HeaderBytes, Owners, Snapshots, Bytewise, TypeIn, SizeIn, MessageSize, Kept, SentBy;
    ParseDecodes(s);
    StreamAt(s);
    assert Tile(s.log, s.stream, |s.buf|, s.consumed);
    if ApplyParse(s).consumer.CLoop? {
      ReadAdvances(s, ApplyParse(s));
    } else {
      ConsumerMoves(s, ApplyParse(s).consumer);
    }
  }

  /** The next byte of the body, fetched from the buffer, is the next byte of the payload. */
  lemma BodyByte(s: State)
    requires Inv(s) && CEnabled(s, CReadBody)
    ensures s.consumed < s.committed <= |s.log|
    ensures var c, r := s.consumer, s.log[s.consumed];
            && |c.body| < |r.m.payload| && c.body == r.m.payload[..|c.body|]
            && Fetch(s.buf, c.read % |s.buf| + HEADER + |c.body|) == r.m.payload[|c.body|]
  {
    hide AlignUp, PaddingFor, Content, Positions, Owners, Snapshots, Histories, Fetch, Bytewise, HeaderBytes, Wanted, MessageSize;
    InOrder(s);
    var c, r := s.consumer, s.log[s.consumed];
    StreamAt(s);
    FrontShape(s);
    FetchCommitted(s, c.read, HEADER + |c.body|);
    PayloadByte(s.stream, c.read + HEADER, r.m.payload, |c.body|);
  }

  lemma PayloadByte(stream: seq<byte>, x: nat, payload: seq<byte>, k: nat)
    requires x + |payload| <= |stream| && stream[x..x + |payload|] == payload && k < |payload|
    ensures stream[x + k] == payload[k]
  {
    assert stream[x..x + |payload|][k] == stream[x + k];
  }

  lemma ReadBodyInv(s: State)
    requires Inv(s) && CEnabled(s, CReadBody)
    ensures Inv(Apply(s, CReadBody))
  {
    hide Positions, Owners, Snapshots, Histories, Fetch, Bytewise, Wanted;
    BodyByte(s);
    ConsumerMoves(s, Apply(s, CReadBody).consumer);
  }

  /** The consumed prefix of the log grows by the message delivered or passed over. */
  lemma FinishInv(s: State)
    requires Inv(s) && CEnabled(s, CFinish)
    ensures Inv(ApplyFinish(s))
  {
    hide AlignUp, PaddingFor, Content, Owners, Snapshots, Bytewise, SentBy, Tiled;
    var s', r := ApplyFinish(s), s.log[s.consumed];
    StreamAt(s);
    assert s.log[..s.consumed + 1][..s.consumed] == s.log[..s.consumed];
    assert s.consumer.body[..|s.consumer.body|] == s.consumer.body;
    assert Wanted(r.m.typ, s.interested) ==> Message(s.consumer.typ, s.consumer.body) == r.m;
    ReadAdvances(s, s');
  }

  // ---------- Every run ----------

  /** Every step keeps the invariant, given that a reservation fits and padding is skipped exactly. */
  lemma StepInv(s: State, a: Action)
    requires Inv(s) && Enabled(s, a) && StepOk(s, a)
    ensures Inv(Apply(s, a))
  {
    hide AlignUp, PaddingFor, Content, Positions, Owners, Bytewise, Reading, Histories, Admits;
    match a
    case Begin(p, m) => LocalStep(s, p, Loop(m));
    case LoadRead(p) => LoadReadInv(s, p);
    case LoadReserve(p) => LoadReserveInv(s, p);
    case Refuse(p) => LocalStep(s, p, Idle);
    case Retry(p) => assert Loaded(s, p); LocalStep(s, p, Loop(s.producers[p].pc.m));
    case Reserve(p) => ReserveOthers(s, p);
    case WriteByte(p) => WriteInv(s, p);
    case Publish(p) => PublishInv(s, p);
    case CLoadCommit => LoadCommitInv(s);
    case CShortTail => ShortTailInv(s);
    case CReadHeader => ReadHeaderInv(s);
    case CParse => ParseInv(s);
    case CReadBody => ReadBodyInv(s);
    case CFinish => FinishInv(s);
    case CBegin => CallInv(s, a);
    case CLoadRead => CallInv(s, a);
  }

  lemma CallInv(s: State, a: Action)
    requires Inv(s) && Enabled(s, a) && (a.CBegin? || a.CLoadRead?)
    ensures Inv(Apply(s, a))
  {
    hide AlignUp, PaddingFor, Content, Owners, Bytewise, Histories, Admits, Tiled, Bound;
    ConsumerMoves(s, Apply(s, a).consumer);
  }

  lemma LoadReadInv(s: State, p: nat)
    requires Inv(s) && PEnabled(s, LoadRead(p), p)
    ensures Inv(Apply(s, LoadRead(p)))
  {
    hide AlignUp, PaddingFor, Content, Positions, Owners, Bytewise, Reading, Histories, Admits;
    assert Loaded(s, p);
    LocalStep(s, p, GotRead(s.producers[p].pc.m, s.readPos));
  }

  lemma LoadReserveInv(s: State, p: nat)
    requires Inv(s) && PEnabled(s, LoadReserve(p), p)
    ensures Inv(Apply(s, LoadReserve(p)))
  {
    hide AlignUp, PaddingFor, Content, Owners, Bytewise, Reading, Histories, Admits, Tiled, Bound;
    assert Loaded(s, p);
    LocalStep(s, p, GotBoth(s.producers[p].pc.m, s.producers[p].pc.read, s.reservePos));
  }

  lemma {:induction false} RunInv(s: State, acts: seq<Action>)
    requires Inv(s) && ValidRun(s, acts) && StepsOk(s, acts)
    ensures Inv(Final(s, acts))
    decreases |acts|
  {
    hide Inv, Apply, Enabled, StepOk;
    if acts != [] {
      StepInv(s, acts[0]);
      RunInv(Apply(s, acts[0]), acts[1..]);
    }
  }

  /** With a capacity that works padding is always skipped exactly. */
  lemma WorksSkipOk(s: State, a: Action)
    requires Inv(s) && Works(|s.buf|)
    ensures SkipOk(s, a)
  {
    hide Owners, Bytewise, Snapshots, Reading, Histories, Skippable, Content, AlignUp, PaddingFor, Works;
    if s.consumed < |s.log| {
      assert Tile(s.log, s.stream, |s.buf|, s.consumed);
      TileSkips(s.log, s.stream, |s.buf|, s.consumed);
    }
  }

  lemma BufferKept(s: State, a: Action)
    requires Enabled(s, a)
    ensures |Apply(s, a).buf| == |s.buf| && Apply(s, a).interested == s.interested
    ensures |Apply(s, a).producers| == |s.producers|
  {
    hide AlignUp, PaddingFor, Content, Admits, Reserved;
  }

  /** So there it is enough that every reservation of a run fits. */
  lemma {:induction false} FitRun(s: State, acts: seq<Action>)
    requires Inv(s) && Works(|s.buf|) && ValidRun(s, acts) && ReservesFit(s, acts)
    ensures StepsOk(s, acts) && Inv(Final(s, acts))
    decreases |acts|
  {
    hide Inv, Apply, Enabled, FitOk, SkipOk, Works;
    if acts != [] {
      WorksSkipOk(s, acts[0]);
      StepInv(s, acts[0]);
      BufferKept(s, acts[0]);
      FitRun(Apply(s, acts[0]), acts[1..]);
    }
  }
}
