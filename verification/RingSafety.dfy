/**
 Safety of the byte ring: reservations tile the positions, their cells are disjoint, and the bytes
 of every committed unread record are the ones its producer wrote.
 */
module RingSafety {
  import opened Bytes
  import opened RingRecords
  import opened RingMachine

  // ---------- The log of reservations ----------

  function End(r: Reservation): nat {
    r.begin + r.pad + SizeOf(r.m)
  }

  /** Where the i-th reservation begins, or would begin. */
  function Bound(log: seq<Reservation>, i: nat): nat
    requires i <= |log|
  {
    if i == 0 then 0 else End(log[i - 1])
  }

  /**
   A reservation begins where the one before it ends, is placed as TrySend places it, fits into the
   buffer, and owns its bytes of the stream; those of a gap that is not written are what is there.
   */
  ghost predicate Tile(log: seq<Reservation>, stream: seq<byte>, capacity: nat, i: nat)
    requires i < |log| && capacity > 0
  {
    var r := log[i];
    && ValidMessage(r.m) && r.pad + SizeOf(r.m) <= capacity
    && r.begin == Bound(log, i) && r.begin % capacity % 8 == 0
    && r.pad == PaddingFor(r.begin, SizeOf(r.m), capacity)
    && End(r) <= |stream|
    && stream[r.begin + FirstWritten(r.pad)..End(r)] == Content(r.m, r.pad)[FirstWritten(r.pad)..]
  }

  ghost predicate Tiled(log: seq<Reservation>, stream: seq<byte>, capacity: nat)
    requires capacity > 0
  {
    && |stream| == Bound(log, |log|) && |stream| % capacity % 8 == 0
    && forall i :: 0 <= i < |log| ==> Tile(log, stream, capacity, i)
  }

  lemma ContentLength(m: Message, pad: nat)
    requires ValidMessage(m)
    ensures |Content(m, pad)| == pad + SizeOf(m)
  {
  }

  /** The geometry of one reservation, collected from `Placement`. */
  lemma TileShape(log: seq<Reservation>, stream: seq<byte>, capacity: nat, i: nat)
    requires i < |log| && 0 < capacity && Tile(log, stream, capacity, i)
    ensures var r, size := log[i], SizeOf(log[i].m);
            && HEADER + |r.m.payload| <= size && size % 8 == 0 && size < WORD32
            && r.pad < size && (r.pad > 0 ==> r.pad % 8 == capacity % 8)
            && (r.pad == 0 || r.pad >= HEADER ==> capacity - r.begin % capacity >= HEADER)
            && (r.pad > 0 ==> r.begin % capacity + r.pad == capacity && (r.begin + r.pad) % capacity == 0)
            && (r.begin + r.pad) % capacity + size <= capacity && (r.begin + r.pad) % capacity % 8 == 0
            && End(r) % capacity % 8 == 0 && |Content(r.m, r.pad)| == r.pad + size
            && (r.pad == 0 ==> (r.begin + r.pad) % capacity == r.begin % capacity)
  {
    hide AlignUp, PaddingFor, Content;
    ContentLength(log[i].m, log[i].pad);
    SizeCoversPayload(|log[i].m.payload|);
    Placement(log[i].begin, SizeOf(log[i].m), capacity);
  }

  /** With a capacity that works every padding is skipped exactly. */
  lemma TileSkips(log: seq<Reservation>, stream: seq<byte>, capacity: nat, i: nat)
    requires i < |log| && 0 < capacity && Tile(log, stream, capacity, i) && Works(capacity)
    ensures Skippable(log[i].pad)
  {
    hide AlignUp, PaddingFor, Content, Skippable;
    SizeCoversPayload(|log[i].m.payload|);
    WorksSkips(log[i].begin, SizeOf(log[i].m), capacity);
  }

  lemma {:induction false} BoundsGrow(log: seq<Reservation>, stream: seq<byte>, capacity: nat, i: nat, j: nat)
    requires 0 < capacity && Tiled(log, stream, capacity) && i <= j <= |log|
    ensures Bound(log, i) + HEADER * (j - i) <= Bound(log, j)
    decreases j - i
  {
    hide AlignUp, PaddingFor, Content;
    if i < j {
      BoundsGrow(log, stream, capacity, i, j - 1);
      assert Tile(log, stream, capacity, j - 1);
      TileShape(log, stream, capacity, j - 1);
    }
  }

  /** Every bound between reservations is at an offset that is a multiple of 8. */
  lemma BoundAligned(log: seq<Reservation>, stream: seq<byte>, capacity: nat, i: nat)
    requires 0 < capacity && Tiled(log, stream, capacity) && i <= |log|
    ensures Bound(log, i) % capacity % 8 == 0
  {
    hide AlignUp, PaddingFor, Content;
    if i < |log| {
      assert Tile(log, stream, capacity, i);
    }
  }

  /** Appending a well-placed reservation keeps the tiling. */
  lemma TileAppended(log: seq<Reservation>, stream: seq<byte>, capacity: nat, r: Reservation, more: seq<byte>)
    requires 0 < capacity && Tiled(log, stream, capacity)
    requires ValidMessage(r.m) && r.pad + SizeOf(r.m) <= capacity && r.begin == |stream|
    requires r.pad == PaddingFor(r.begin, SizeOf(r.m), capacity)
    requires |more| == |Content(r.m, r.pad)| && more[FirstWritten(r.pad)..] == Content(r.m, r.pad)[FirstWritten(r.pad)..]
    ensures Tiled(log + [r], stream + more, capacity)
    ensures |more| == r.pad + SizeOf(r.m)
  {
    hide AlignUp, PaddingFor, Content, FirstWritten, Tile;
    var log', stream' := log + [r], stream + more;
    ContentLength(r.m, r.pad);
    SizeCoversPayload(|r.m.payload|);
    Placement(r.begin, SizeOf(r.m), capacity);
    forall i | 0 <= i < |log'|
      ensures Tile(log', stream', capacity, i)
    {
      if i < |log| {
        TileStays(log, stream, capacity, i, [r], more);
      } else {
        NewTile(log, stream, capacity, r, more);
      }
    }
  }

  lemma TileStays(log: seq<Reservation>, stream: seq<byte>, capacity: nat, i: nat, later: seq<Reservation>, more: seq<byte>)
    requires 0 < capacity && i < |log| && Tile(log, stream, capacity, i)
    ensures Tile(log + later, stream + more, capacity, i)
  {
    hide AlignUp, PaddingFor, Content, SizeOf, ValidMessage;
    var r, f := log[i], FirstWritten(log[i].pad);
    assert (stream + more)[r.begin + f..End(r)] == stream[r.begin + f..End(r)];
  }

  lemma NewTile(log: seq<Reservation>, stream: seq<byte>, capacity: nat, r: Reservation, more: seq<byte>)
    requires 0 < capacity && |stream| == Bound(log, |log|) && |stream| % capacity % 8 == 0
    requires ValidMessage(r.m) && r.pad + SizeOf(r.m) <= capacity && r.begin == |stream|
    requires r.pad == PaddingFor(r.begin, SizeOf(r.m), capacity)
    requires |more| == |Content(r.m, r.pad)| == r.pad + SizeOf(r.m)
    requires more[FirstWritten(r.pad)..] == Content(r.m, r.pad)[FirstWritten(r.pad)..]
    ensures Tile(log + [r], stream + more, capacity, |log|)
  {
    hide AlignUp, PaddingFor, Content, SizeOf, ValidMessage;
    var f := FirstWritten(r.pad);
    assert (stream + more)[r.begin + f..End(r)] == more[f..];
  }

  // ---------- Cells ----------

  /** The cell of an absolute position. */
  function Cell(buf: seq<byte>, x: nat): byte
    requires |buf| > 0
  {
    buf[x % |buf|]
  }

  /** The cells of positions in [lo, hi) hold the bytes reserved for them. */
  ghost predicate Agree(buf: seq<byte>, stream: seq<byte>, lo: nat, hi: nat)
    requires |buf| > 0 && hi <= |stream|
  {
    forall x :: lo <= x < hi ==> Cell(buf, x) == stream[x]
  }

  /** Storing at position y leaves a range alone that shares a window of one capacity with y. */
  lemma StoreElsewhere(buf: seq<byte>, stream: seq<byte>, lo: nat, hi: nat, window: nat, y: nat, v: byte)
    requires |buf| > 0 && hi <= |stream| && Agree(buf, stream, lo, hi)
    requires window <= lo && hi <= window + |buf| && window <= y < window + |buf|
    requires y < lo || hi <= y
    ensures Agree(Store(buf, y % |buf|, v), stream, lo, hi)
  {
    forall x | lo <= x < hi
      ensures Cell(Store(buf, y % |buf|, v), x) == stream[x]
    {
      assert Cell(buf, x) == stream[x];
      if x < y { CellsDiffer(x, y, |buf|); } else { CellsDiffer(y, x, |buf|); }
    }
  }

  /** The address the source computes is the cell of the absolute position, and inside the buffer. */
  lemma AddressIsCell(log: seq<Reservation>, stream: seq<byte>, capacity: nat, i: nat, k: nat)
    requires i < |log| && 0 < capacity && Tile(log, stream, capacity, i)
    requires k < log[i].pad + SizeOf(log[i].m)
    ensures Address(log[i].begin, log[i].pad, k, capacity) == (log[i].begin + k) % capacity
  {
    hide AlignUp, PaddingFor, Content;
    TileShape(log, stream, capacity, i);
    var r := log[i];
    if k < r.pad {
      ModStep(r.begin, k, capacity);
    } else {
      ModStep(r.begin + r.pad, k - r.pad, capacity);
      assert r.begin + r.pad + (k - r.pad) == r.begin + k;
    }
  }

  // ---------- The invariant ----------

  ghost predicate Positions(s: State) {
    && 0 < |s.buf| < WORD64
    && s.readPos <= s.commitPos <= s.reservePos <= s.readPos + |s.buf|
    && |s.stream| == s.reservePos
    && Tiled(s.log, s.stream, |s.buf|)
    && s.consumed <= s.committed <= |s.log|
    && s.commitPos == Bound(s.log, s.committed)
    && (s.readPos == Bound(s.log, s.consumed) ||
        (s.consumed < s.committed && s.readPos == s.log[s.consumed].begin + s.log[s.consumed].pad))
  }

  /** In-flight reservations are owned by the producers that write them, one each. */
  ghost predicate Owned(s: State, p: nat)
    requires p < |s.producers|
  {
    var pc := s.producers[p].pc;
    pc.Writing? ==>
      && s.committed <= pc.ticket < |s.log|
      && s.log[pc.ticket] == Reservation(p, pc.m, pc.begin, pc.pad)
      && FirstWritten(pc.pad) <= pc.done <= pc.pad + SizeOf(pc.m)
  }

  ghost predicate Owner(s: State, i: nat)
    requires i < |s.log|
  {
    && s.log[i].p < |s.producers|
    && s.producers[s.log[i].p].pc.Writing? && s.producers[s.log[i].p].pc.ticket == i
  }

  ghost predicate Owners(s: State) {
    && (forall p :: 0 <= p < |s.producers| ==> Owned(s, p))
    && (forall i :: s.committed <= i < |s.log| ==> Owner(s, i))
  }

  /** Unread committed bytes and the bytes in-flight producers have copied so far are in the buffer. */
  ghost predicate Written(s: State, p: nat)
    requires p < |s.producers| && |s.buf| > 0
  {
    var pc := s.producers[p].pc;
    pc.Writing? && pc.begin + pc.done <= |s.stream| ==> Agree(s.buf, s.stream, pc.begin, pc.begin + pc.done)
  }

  ghost predicate Bytewise(s: State) {
    && |s.buf| > 0 && s.commitPos <= |s.stream|
    && Agree(s.buf, s.stream, s.readPos, s.commitPos)
    && (forall p :: 0 <= p < |s.producers| ==> Written(s, p))
  }

  /** What a producer has loaded is old but in order. */
  ghost predicate Loaded(s: State, p: nat)
    requires p < |s.producers|
  {
    match s.producers[p].pc
    case Loop(m) => ValidMessage(m) && SizeOf(m) <= |s.buf|
    case GotRead(m, read) => ValidMessage(m) && SizeOf(m) <= |s.buf| && read <= s.readPos
    case GotBoth(m, read, reserve) =>
      ValidMessage(m) && SizeOf(m) <= |s.buf| && read <= s.readPos && read <= reserve
    case _ => true
  }

  ghost predicate Snapshots(s: State) {
    forall p :: 0 <= p < |s.producers| ==> Loaded(s, p)
  }

  /** The consumer reads committed bytes from the first unread record, and jumps at most once in a call. */
  ghost predicate SkipsOk(s: State, skips: nat)
    requires s.consumed <= s.committed <= |s.log|
  {
    if skips == 0 then s.readPos == Bound(s.log, s.consumed)
    else
      && skips == 1 && s.consumed < s.committed && s.log[s.consumed].pad > 0
      && s.readPos == s.log[s.consumed].begin + s.log[s.consumed].pad
  }

  ghost predicate Reading(s: State)
    requires s.consumed <= s.committed <= |s.log| && s.readPos <= s.commitPos <= |s.stream|
  {
    match s.consumer
    case CIdle => SkipsOk(s, 0)
    case CLoop(skips) => SkipsOk(s, skips)
    case CGotRead(read, skips) => read == s.readPos && SkipsOk(s, skips)
    case CHeader(read, commit, got, skips) =>
      && read == s.readPos && SkipsOk(s, skips)
      && s.consumed < s.committed && End(s.log[s.consumed]) <= commit <= s.commitPos
      && (got != [] ==> |s.buf| > 0 && |s.buf| - read % |s.buf| >= HEADER)
      && |got| <= HEADER && read + |got| <= |s.stream| && got == s.stream[read..read + |got|]
    case CBody(read, next, typ, size, body) =>
      && s.consumed < s.committed
      && read == s.readPos == s.log[s.consumed].begin + s.log[s.consumed].pad
      && next == End(s.log[s.consumed])
      && typ == s.log[s.consumed].m.typ && size == |s.log[s.consumed].m.payload|
      && |body| <= size && body == s.log[s.consumed].m.payload[..|body|]
  }

  // ---------- What happened to the messages ----------

  /** The messages of a log a consumer interested in `interested` is given. */
  function Kept(log: seq<Reservation>, interested: nat): seq<Message> {
    if log == [] then [] else
      var last := log[|log| - 1].m;
      Kept(log[..|log| - 1], interested) + if Wanted(last.typ, interested) then [last] else []
  }

  /** The messages of producer p in a log. */
  function SentBy(log: seq<Reservation>, p: nat): seq<Message> {
    if log == [] then [] else
      var last := log[|log| - 1];
      SentBy(log[..|log| - 1], p) + if last.p == p then [last.m] else []
  }

  ghost predicate Histories(s: State)
    requires s.consumed <= s.committed <= |s.log|
  {
    && s.delivered == Kept(s.log[..s.consumed], s.interested)
    && forall p :: 0 <= p < |s.producers| ==> s.producers[p].sent == SentBy(s.log[..s.committed], p)
  }

  ghost predicate Inv(s: State) {
    Positions(s) && Owners(s) && Bytewise(s) && Snapshots(s) && Reading(s) && Histories(s)
  }

  lemma InitInv(n: nat, buf: seq<byte>, interested: nat)
    requires 0 < |buf| < WORD64
    ensures Inv(Init(n, buf, interested))
  {
  }

  // ---------- Steps of producers ----------

  /** A step that changes only where producer p is, before it owns a range. */
  lemma LocalStep(s: State, p: nat, pc: Pc)
    requires Inv(s) && p < |s.producers| && !s.producers[p].pc.Writing? && !pc.Writing?
    requires Loaded(Go(s, p, pc), p)
    ensures Inv(Go(s, p, pc))
  {
    var s' := Go(s, p, pc);
    assert forall q :: 0 <= q < |s.producers| && q != p ==> s'.producers[q] == s.producers[q];
    forall q | 0 <= q < |s.producers|
      ensures Owned(s', q) && Written(s', q) && Loaded(s', q)
    {
      assert Owned(s, q) && Written(s, q) && Loaded(s, q);
    }
    forall i | s.committed <= i < |s.log|
      ensures Owner(s', i)
    {
      assert Owner(s, i);
    }
  }

  lemma AgreeExtended(buf: seq<byte>, stream: seq<byte>, more: seq<byte>, lo: nat, hi: nat)
    requires |buf| > 0 && hi <= |stream| && Agree(buf, stream, lo, hi)
    ensures Agree(buf, stream + more, lo, hi)
  {
    forall x | lo <= x < hi
      ensures Cell(buf, x) == (stream + more)[x]
    {
      assert Cell(buf, x) == stream[x];
    }
  }

  /** What a reservation adds to the stream, with the cells of a gap that is not written as they are. */
  lemma ReservedBytes(buf: seq<byte>, begin: nat, m: Message, pad: nat)
    requires |buf| > 0 && ValidMessage(m) && (pad > 0 ==> begin % |buf| + pad <= |buf|)
    ensures var more, f := Reserved(buf, begin, m, pad), FirstWritten(pad);
            && |more| == |Content(m, pad)| == pad + SizeOf(m) && more[f..] == Content(m, pad)[f..]
            && forall k :: 0 <= k < f ==> Cell(buf, begin + k) == more[k]
  {
    hide Content;
    ContentLength(m, pad);
    var more, f := Reserved(buf, begin, m, pad), FirstWritten(pad);
    forall k | 0 <= k < f
      ensures Cell(buf, begin + k) == more[k]
    {
      ModStep(begin, k, |buf|);
    }
  }

  lemma ReserveShape(s: State, p: nat)
    requires Inv(s) && PEnabled(s, Reserve(p), p) && FitOk(s, Reserve(p))
    ensures var pc := s.producers[p].pc; var pad := PaddingFor(pc.reserve, SizeOf(pc.m), |s.buf|);
            && ValidMessage(pc.m) && pad + SizeOf(pc.m) <= |s.buf| && pc.reserve == |s.stream| == Bound(s.log, |s.log|)
            && (pad > 0 ==> pc.reserve % |s.buf| + pad == |s.buf|)
  {
    hide AlignUp, PaddingFor, Content, Reading, Histories, Owners, Bytewise, Tile, Admits;
    assert Loaded(s, p);
    var pc := s.producers[p].pc;
    SizeCoversPayload(|pc.m.payload|);
    Placement(pc.reserve, SizeOf(pc.m), |s.buf|);
  }

  lemma ReservePositions(s: State, p: nat)
    requires Inv(s) && PEnabled(s, Reserve(p), p) && FitOk(s, Reserve(p))
    ensures Positions(ApplyReserve(s, p))
  {
    hide AlignUp, PaddingFor, Content, Reading, Histories, Owners, Bytewise, Snapshots, Admits, Tile, Reserved, FirstWritten;
    ReserveShape(s, p);
    var pc, s' := s.producers[p].pc, ApplyReserve(s, p);
    var r := s'.log[|s.log|];
    ReservedBytes(s.buf, r.begin, r.m, r.pad);
    TileAppended(s.log, s.stream, |s.buf|, r, Reserved(s.buf, r.begin, r.m, r.pad));
  }

  /** The gap that is not written agrees with the stream from the start. */
  lemma ReserveWritten(s: State, p: nat)
    requires Inv(s) && PEnabled(s, Reserve(p), p) && FitOk(s, Reserve(p))
    ensures Written(ApplyReserve(s, p), p)
  {
    hide AlignUp, PaddingFor, Content, Reading, Histories, Owners, Bytewise, Snapshots, Admits, Tile, Tiled, Reserved, FirstWritten, Cell;
    ReserveShape(s, p);
    var s' := ApplyReserve(s, p);
    var r := s'.log[|s.log|];
    ReservedBytes(s.buf, r.begin, r.m, r.pad);
    forall x | r.begin <= x < r.begin + FirstWritten(r.pad) && x < |s'.stream|
      ensures Cell(s.buf, x) == s'.stream[x]
    {
      assert x == r.begin + (x - r.begin);
    }
  }

  /** What another producer owns, has copied and has loaded is untouched by a reservation. */
  lemma ReserveKeeps(s: State, p: nat, q: nat)
    requires Inv(s) && PEnabled(s, Reserve(p), p) && q < |s.producers| && q != p
    ensures var s' := ApplyReserve(s, p); Owned(s', q) && Written(s', q) && Loaded(s', q)
  {
    hide AlignUp, PaddingFor, Content, Admits, Tile, Cell, SentBy, Kept, Reserved, Reading, Histories, FirstWritten, Agree,
         MessageSize, Tiled, Bound;
    assert Owned(s, q) && Written(s, q) && Loaded(s, q);
    var s', pc := ApplyReserve(s, p), s.producers[q].pc;
    if pc.Writing? {
      WritingInside(s, q);
      AgreeExtended(s.buf, s.stream, s'.stream[|s.stream|..], pc.begin, pc.begin + pc.done);
    }
  }

  lemma ReserveOthers(s: State, p: nat)
    requires Inv(s) && PEnabled(s, Reserve(p), p) && FitOk(s, Reserve(p))
    ensures Owners(ApplyReserve(s, p)) && Bytewise(ApplyReserve(s, p)) && Snapshots(ApplyReserve(s, p))
    ensures Positions(ApplyReserve(s, p)) && Reading(ApplyReserve(s, p)) && Histories(ApplyReserve(s, p))
  {
    hide AlignUp, PaddingFor, Content, Admits, Tile, Cell, SentBy, Kept, Reserved, Agree, Written, MessageSize;
    ReservePositions(s, p);
    ReserveWritten(s, p);
    var s' := ApplyReserve(s, p);
    AgreeExtended(s.buf, s.stream, s'.stream[|s.stream|..], s.readPos, s.commitPos);
    forall q | 0 <= q < |s.producers|
      ensures Owned(s', q) && Written(s', q) && Loaded(s', q)
    {
      if q != p {
        ReserveKeeps(s, p, q);
      }
    }
    forall i | s'.committed <= i < |s'.log|
      ensures Owner(s', i)
    {
      assert i < |s.log| ==> Owner(s, i);
    }
    assert s'.log[..s.consumed] == s.log[..s.consumed] && s'.log[..s.committed] == s.log[..s.committed];
  }

  /** A writing producer works between the commit and the reserve position. */
  lemma WritingInside(s: State, p: nat)
    requires Positions(s) && Owners(s) && p < |s.producers| && s.producers[p].pc.Writing?
    ensures var pc := s.producers[p].pc;
            && s.committed <= pc.ticket < |s.log|
            && s.commitPos <= pc.begin == Bound(s.log, pc.ticket)
            && pc.begin + pc.pad + SizeOf(pc.m) == Bound(s.log, pc.ticket + 1) <= s.reservePos
            && ValidMessage(pc.m) && |Content(pc.m, pc.pad)| == pc.pad + SizeOf(pc.m)
            && Tile(s.log, s.stream, |s.buf|, pc.ticket)
  {
    hide AlignUp, PaddingFor, Content;
    var pc := s.producers[p].pc;
    assert Owned(s, p);
    assert Tile(s.log, s.stream, |s.buf|, pc.ticket);
    BoundsGrow(s.log, s.stream, |s.buf|, s.committed, pc.ticket);
    BoundsGrow(s.log, s.stream, |s.buf|, pc.ticket + 1, |s.log|);
    ContentLength(pc.m, pc.pad);
  }

  /** Two writing producers own disjoint ranges. */
  lemma RangesDisjoint(s: State, p: nat, q: nat)
    requires Positions(s) && Owners(s) && p < |s.producers| && q < |s.producers| && p != q
    requires s.producers[p].pc.Writing? && s.producers[q].pc.Writing?
    ensures var a, b := s.producers[p].pc, s.producers[q].pc;
            a.begin + a.pad + SizeOf(a.m) <= b.begin || b.begin + b.pad + SizeOf(b.m) <= a.begin
  {
    hide AlignUp, PaddingFor, Content;
    assert Owned(s, p) && Owned(s, q);
    WritingInside(s, p);
    WritingInside(s, q);
    var i, j := s.producers[p].pc.ticket, s.producers[q].pc.ticket;
    if i < j {
      BoundsGrow(s.log, s.stream, |s.buf|, i + 1, j);
    } else {
      BoundsGrow(s.log, s.stream, |s.buf|, j + 1, i);
    }
  }

  /** One copied byte lands in its own cell and nowhere else that matters. */
  lemma WriteStores(s: State, p: nat)
    requires Inv(s) && PEnabled(s, WriteByte(p), p)
    ensures var pc := s.producers[p].pc;
            && pc.begin + pc.done < |s.stream| && Content(pc.m, pc.pad)[pc.done] == s.stream[pc.begin + pc.done]
            && ApplyWrite(s, p).buf == Store(s.buf, (pc.begin + pc.done) % |s.buf|, s.stream[pc.begin + pc.done])
            && Address(pc.begin, pc.pad, pc.done, |s.buf|) < |s.buf|
  {
    hide AlignUp, PaddingFor, Content, Reading, Histories, Bytewise, Snapshots;
    var pc := s.producers[p].pc;
    assert Owned(s, p);
    WritingInside(s, p);
    AddressIsCell(s.log, s.stream, |s.buf|, pc.ticket, pc.done);
    var r, f := s.log[pc.ticket], FirstWritten(pc.pad);
    assert Content(pc.m, pc.pad)[f..][pc.done - f] == s.stream[r.begin + f..End(r)][pc.done - f];
  }

  /** The byte is where the stream has it, and what the producer copied before is untouched. */
  lemma WriteOwn(s: State, p: nat)
    requires Inv(s) && PEnabled(s, WriteByte(p), p)
    ensures Written(ApplyWrite(s, p), p)
  {
    hide AlignUp, PaddingFor, Content, Reading, Histories, Snapshots, Tiled, Tile, Address, Bound, FirstWritten;
    var pc, s' := s.producers[p].pc, ApplyWrite(s, p);
    var y := pc.begin + pc.done;
    WriteStores(s, p);
    WritingInside(s, p);
    assert Written(s, p);
    StoreElsewhere(s.buf, s.stream, pc.begin, y, s.readPos, y, s.stream[y]);
    assert Cell(s'.buf, y) == s.stream[y];
  }

  /** What another producer has copied is untouched. */
  lemma WriteKeeps(s: State, p: nat, q: nat)
    requires Inv(s) && PEnabled(s, WriteByte(p), p) && q < |s.producers| && q != p
    ensures Written(ApplyWrite(s, p), q)
  {
    hide AlignUp, PaddingFor, Content, Reading, Histories, Snapshots, Tiled, Tile, Address, Bound, Cell, Store, FirstWritten, Agree;
    assert Written(s, q) && Owned(s, q);
    if s.producers[q].pc.Writing? {
      WriteStores(s, p);
      WritingInside(s, p);
      WritingInside(s, q);
      WriteApart(s, p, q);
    }
  }

  lemma WriteApart(s: State, p: nat, q: nat)
    requires Positions(s) && Owners(s) && p < |s.producers| && q < |s.producers| && p != q
    requires s.producers[p].pc.Writing? && s.producers[p].pc.done < s.producers[p].pc.pad + SizeOf(s.producers[p].pc.m)
    requires s.producers[q].pc.Writing? && s.producers[q].pc.done <= s.producers[q].pc.pad + SizeOf(s.producers[q].pc.m)
    requires var pc, other := s.producers[p].pc, s.producers[q].pc;
             && pc.begin + pc.done < |s.stream| && other.begin + other.done <= |s.stream|
             && Agree(s.buf, s.stream, other.begin, other.begin + other.done)
    ensures var pc, other := s.producers[p].pc, s.producers[q].pc;
            var y := pc.begin + pc.done;
            Agree(Store(s.buf, y % |s.buf|, s.stream[y]), s.stream, other.begin, other.begin + other.done)
  {
    hide Tiled, Tile, Bound, Cell, Store, Agree, Content, ValidMessage, Owners, SizeOf;
    var pc, other := s.producers[p].pc, s.producers[q].pc;
    ApartFrom(s, p, q);
    StoreElsewhere(s.buf, s.stream, other.begin, other.begin + other.done, s.readPos, pc.begin + pc.done,
                   s.stream[pc.begin + pc.done]);
  }

  /** The byte one writing producer copies next lies outside what another has copied, and both within one capacity. */
  lemma ApartFrom(s: State, p: nat, q: nat)
    requires Positions(s) && Owners(s) && p < |s.producers| && q < |s.producers| && p != q
    requires s.producers[p].pc.Writing? && s.producers[p].pc.done < s.producers[p].pc.pad + SizeOf(s.producers[p].pc.m)
    requires s.producers[q].pc.Writing? && s.producers[q].pc.done <= s.producers[q].pc.pad + SizeOf(s.producers[q].pc.m)
    ensures var pc, other := s.producers[p].pc, s.producers[q].pc;
            && s.readPos <= pc.begin + pc.done < s.readPos + |s.buf| && pc.begin + pc.done < |s.stream|
            && s.readPos <= other.begin && other.begin + other.done <= s.readPos + |s.buf|
            && (pc.begin + pc.done < other.begin || other.begin + other.done <= pc.begin + pc.done)
  {
    hide Tiled, Tile, Bound, Content, ValidMessage, Owners, SizeOf;
    WritingInside(s, p);
    WritingInside(s, q);
    RangesDisjoint(s, p, q);
  }

  lemma WriteBytewise(s: State, p: nat)
    requires Inv(s) && PEnabled(s, WriteByte(p), p)
    ensures Bytewise(ApplyWrite(s, p))
  {
    hide AlignUp, PaddingFor, Content, Reading, Histories, Snapshots, Owners, Tiled, Tile, Address, Bound, Cell, Store, Written, Agree;
    var pc, s' := s.producers[p].pc, ApplyWrite(s, p);
    var y := pc.begin + pc.done;
    WriteStores(s, p);
    WritingInside(s, p);
    StoreElsewhere(s.buf, s.stream, s.readPos, s.commitPos, s.readPos, y, s.stream[y]);
    forall q | 0 <= q < |s.producers|
      ensures Written(s', q)
    {
      if q == p { WriteOwn(s, p); } else { WriteKeeps(s, p, q); }
    }
  }

  lemma WriteInv(s: State, p: nat)
    requires Inv(s) && PEnabled(s, WriteByte(p), p)
    ensures Inv(ApplyWrite(s, p))
  {
    hide AlignUp, PaddingFor, Content, Tiled, Tile, Address, Bound, Cell, SentBy, Kept, Store;
    WriteBytewise(s, p);
    WritingInside(s, p);
    var s' := ApplyWrite(s, p);
    forall q | 0 <= q < |s.producers|
      ensures Owned(s', q) && Loaded(s', q)
    {
      assert Owned(s, q) && Loaded(s, q);
    }
    forall i | s.committed <= i < |s.log|
      ensures Owner(s', i)
    {
      assert Owner(s, i);
    }
  }

  // ---------- Publication ----------

  /** The range at the commit position belongs to the oldest unpublished reservation. */
  lemma PublishIsNext(s: State, p: nat)
    requires Positions(s) && Owners(s) && p < |s.producers| && s.producers[p].pc.Writing?
    ensures s.producers[p].pc.begin == s.commitPos <==> s.producers[p].pc.ticket == s.committed
  {
    hide AlignUp, PaddingFor, Content;
    assert Owned(s, p);
    WritingInside(s, p);
    BoundsGrow(s.log, s.stream, |s.buf|, s.committed, s.producers[p].pc.ticket);
  }

  lemma PublishInv(s: State, p: nat)
    requires Inv(s) && PEnabled(s, Publish(p), p)
    ensures Inv(ApplyPublish(s, p))
  {
    hide AlignUp, PaddingFor, Content, Tile, Cell, SizeOf, ValidMessage, Kept;
    var pc, s' := s.producers[p].pc, ApplyPublish(s, p);
    assert Owned(s, p) && Written(s, p);
    WritingInside(s, p);
    PublishIsNext(s, p);
    assert s'.log[..s'.committed][..s.committed] == s.log[..s.committed];
    forall q | 0 <= q < |s.producers|
      ensures Owned(s', q) && Written(s', q) && Loaded(s', q)
    {
      assert Owned(s, q) && Written(s, q) && Loaded(s, q);
    }
    forall i | s'.committed <= i < |s'.log|
      ensures Owner(s', i)
    {
      assert Owner(s, i);
    }
  }
}
