/**
 Records of the byte ring: sizes in the source's 32- and 64-bit arithmetic, their bytes, where they
 are placed, and the free-space test.
 */
module RingRecords {
  import opened Bytes

  const HEADER: nat := 8
  const MAX_PAYLOAD: nat := WORD32 - 16

  const PADDING: nat := 0
  const STOP_MESSAGE: nat := 3
  const ALL: nat := 4

  datatype Message = Message(typ: nat, payload: seq<byte>)

  predicate ValidMessage(m: Message) {
    PADDING < m.typ < WORD32 && |m.payload| <= MAX_PAYLOAD
  }

  /** Rounds up to a multiple of 8, in wrapping 32-bit arithmetic on a value that is first truncated. */
  function AlignUp(value: nat): nat {
    (value % WORD32 + 7) % WORD32 / 8 * 8
  }

  /** The size of a message record, as TrySend computes it from the payload's length. */
  function MessageSize(length: nat): nat {
    AlignUp(HEADER + length % WORD32)
  }

  function SizeOf(m: Message): nat {
    MessageSize(|m.payload|)
  }

  lemma AlignUpExact(value: nat)
    requires value <= WORD32 - 8
    ensures AlignUp(value) % 8 == 0 && value <= AlignUp(value) < value + 8
  {
  }

  /** The computed size covers header and payload exactly when the payload is at most 2^32 - 16 bytes long. */
  lemma SizeCoversPayload(length: nat)
    ensures HEADER + length <= MessageSize(length) <==> length <= MAX_PAYLOAD
    ensures length <= MAX_PAYLOAD ==>
              MessageSize(length) % 8 == 0 && HEADER + length <= MessageSize(length) < HEADER + length + 8
  {
    if length <= MAX_PAYLOAD {
      AlignUpExact(HEADER + length);
    } else if length < WORD32 - 8 {
      assert (HEADER + length + 7) % WORD32 == HEADER + length + 7 - WORD32;
    }
  }

  /**
   A padding record of p bytes says p - 8 in its header; the consumer rounds that up again. It skips
   exactly the record if and only if p is a multiple of 8.
   */
  lemma PaddingIsSkippedExactly(p: nat)
    requires HEADER <= p <= WORD32 - 8
    ensures MessageSize(p - HEADER) == p <==> p % 8 == 0
  {
    AlignUpExact(p);
  }

  // ---------- Bytes ----------

  function HeaderBytes(typ: nat, size: nat): seq<byte> {
    Le(typ, 4) + Le(size, 4)
  }

  function TypeIn(header: seq<byte>): nat
    requires |header| == HEADER
  {
    FromLe(header[..4])
  }

  function SizeIn(header: seq<byte>): nat
    requires |header| == HEADER
  {
    FromLe(header[4..])
  }

  lemma HeaderRoundTrip(typ: nat, size: nat)
    requires typ < WORD32 && size < WORD32
    ensures TypeIn(HeaderBytes(typ, size)) == typ && SizeIn(HeaderBytes(typ, size)) == size
  {
    var h := HeaderBytes(typ, size);
    assert h[..4] == Le(typ, 4) && h[4..] == Le(size, 4);
    assert Pow256(4) == WORD32;
    FromLeLe(typ, 4);
    FromLeLe(size, 4);
  }

  /** The header byte by byte: the type and then the size, each with its lowest byte first. */
  lemma HeaderLayout(typ: nat, size: nat)
    ensures HeaderBytes(typ, size) == [typ % 256, typ / 256 % 256, typ / 256 / 256 % 256, typ / 256 / 256 / 256 % 256,
                                       size % 256, size / 256 % 256, size / 256 / 256 % 256, size / 256 / 256 / 256 % 256]
  {
    FourBytes(typ);
    FourBytes(size);
  }

  lemma FourBytes(n: nat)
    ensures Le(n, 4) == [n % 256, n / 256 % 256, n / 256 / 256 % 256, n / 256 / 256 / 256 % 256]
  {
    assert Le(n / 256 / 256 / 256, 1) == [n / 256 / 256 / 256 % 256];
    assert Le(n / 256 / 256, 2) == [n / 256 / 256 % 256] + Le(n / 256 / 256 / 256, 1);
    assert Le(n / 256, 3) == [n / 256 % 256] + Le(n / 256 / 256, 2);
  }

  /** A message record: header, payload, zeros up to a multiple of 8. */
  function RecordBytes(m: Message): (bytes: seq<byte>)
    requires ValidMessage(m)
    ensures |bytes| == SizeOf(m)
  {
    SizeCoversPayload(|m.payload|);
    HeaderBytes(m.typ, |m.payload|) + m.payload + Zeros(SizeOf(m) - HEADER - |m.payload|)
  }

  /** A padding record; a gap too short for a header is left as it is by the source. */
  function PaddingBytes(p: nat): (bytes: seq<byte>)
    requires p == 0 || p >= HEADER
    ensures |bytes| == p
  {
    if p == 0 then [] else HeaderBytes(PADDING, p - HEADER) + Zeros(p - HEADER)
  }

  // ---------- Placement ----------

  /** The padding TrySend puts in front of a record of `size` bytes reserved at `pos`. */
  function PaddingFor(pos: nat, size: nat, capacity: nat): nat
    requires capacity > 0
  {
    var tail := capacity - pos % capacity;
    if tail < size then tail % WORD32 else 0
  }

  lemma ModStep(pos: nat, k: nat, capacity: nat)
    requires capacity > 0 && pos % capacity + k <= capacity
    ensures (pos + k) % capacity == if pos % capacity + k == capacity then 0 else pos % capacity + k
    ensures (pos + k) / capacity == pos / capacity + if pos % capacity + k == capacity then 1 else 0
  {
    var q, r := pos / capacity, pos % capacity;
    assert pos + k == capacity * q + (r + k);
    if r + k == capacity {
      assert pos + k == capacity * (q + 1) + 0;
      DivModUnique(pos + k, capacity, q + 1, 0);
    } else {
      DivModUnique(pos + k, capacity, q, r + k);
    }
  }

  lemma Quotient(x: nat, d: nat) returns (q: nat, r: nat)
    requires d > 0
    ensures x == d * q + r && r == x % d
  {
    q, r := x / d, x % d;
  }

  lemma TimesMultiple(m: nat, c: nat, q: nat)
    requires m == 8 * c
    ensures m * q == 8 * (c * q)
  {
  }

  /**
   Record geometry, for a position whose offset in the buffer is a multiple of 8: the 32-bit cast of
   the tail space loses nothing, padding ends at the end of the buffer, the message behind it does
   not straddle that end, and the record ends at an offset that is a multiple of 8 again.
   */
  lemma Placement(pos: nat, size: nat, capacity: nat)
    requires capacity > 0 && pos % capacity % 8 == 0
    requires size % 8 == 0 && HEADER <= size <= capacity && size < WORD32
    ensures var pad, tail := PaddingFor(pos, size, capacity), capacity - pos % capacity;
            && pad == (if tail < size then tail else 0)
            && pad < size && (pad > 0 ==> pad % 8 == capacity % 8)
            && (pad > 0 ==> pos % capacity + pad == capacity && (pos + pad) % capacity == 0)
            && (pad == 0 ==> (pos + pad) % capacity == pos % capacity)
            && (pos + pad) % capacity + size <= capacity && (pos + pad) % capacity % 8 == 0
            && (pos + pad + size) % capacity % 8 == 0
  {
    var r := pos % capacity;
    var tail := capacity - r;
    if tail < size {
      SmallRest(tail, WORD32);
      TailGeometry(r, tail, capacity);
      BehindTail(pos, size, capacity);
    } else {
      InsideTail(pos, size, capacity);
    }
  }

  lemma BehindTail(pos: nat, size: nat, capacity: nat)
    requires 0 < size <= capacity && size % 8 == 0
    ensures var tail := capacity - pos % capacity;
            (pos + tail) % capacity == 0 && (pos + tail + size) % capacity % 8 == 0
  {
    ModStep(pos, capacity - pos % capacity, capacity);
    ModStep(pos + (capacity - pos % capacity), size, capacity);
  }

  lemma InsideTail(pos: nat, size: nat, capacity: nat)
    requires capacity > 0 && pos % capacity % 8 == 0 && pos % capacity + size <= capacity && size % 8 == 0
    ensures (pos + 0 + size) % capacity % 8 == 0 && (pos + 0) % capacity == pos % capacity
  {
    ModStep(pos, size, capacity);
    EightsAdd(pos % capacity, size);
  }

  lemma TailGeometry(r: nat, tail: nat, capacity: nat)
    requires r + tail == capacity && r % 8 == 0
    ensures tail % 8 == capacity % 8
  {
    var a, b := r / 8, tail / 8;
    assert capacity == 8 * (a + b) + tail % 8;
  }

  lemma EightsAdd(a: nat, b: nat)
    requires a % 8 == 0 && b % 8 == 0
    ensures (a + b) % 8 == 0
  {
    assert a + b == 8 * (a / 8 + b / 8);
  }

  lemma SmallRest(x: nat, d: nat)
    requires x < d
    ensures x % d == x
  {
  }

  // ---------- Capacities ----------

  /** The buffer sizes for which the ring works. */
  predicate Works(capacity: nat) {
    capacity % 8 == 0 || capacity < 24
  }

  /** The consumer skips a gap of p bytes exactly: it is too short for a header, or its header tells its length. */
  predicate Skippable(p: nat) {
    p < HEADER || p % 8 == 0
  }

  /** With a capacity that works, a gap in front of a record that fits together with it is skipped exactly. */
  lemma WorksSkips(pos: nat, size: nat, capacity: nat)
    requires capacity > 0 && pos % capacity % 8 == 0
    requires size % 8 == 0 && HEADER <= size <= capacity && size < WORD32
    requires Works(capacity) && PaddingFor(pos, size, capacity) + size <= capacity
    ensures Skippable(PaddingFor(pos, size, capacity))
  {
    hide PaddingFor;
    Placement(pos, size, capacity);
  }

  /** Two positions less than the capacity apart use different cells. */
  lemma CellsDiffer(x: nat, y: nat, capacity: nat)
    requires x < y < x + capacity
    ensures x % capacity != y % capacity
  {
    if x % capacity == y % capacity {
      var d := y / capacity - x / capacity;
      assert y - x == capacity * d by {
        assert y == capacity * (y / capacity) + y % capacity;
        assert x == capacity * (x / capacity) + x % capacity;
        assert capacity * d == capacity * (y / capacity) - capacity * (x / capacity);
      }
      MulBound(capacity, d);
    }
  }

  // ---------- The free-space test ----------

  /** hw-5/mpsc_queue.cpp, lines 182-194: `used` and `freeSpace` are unsigned 64-bit differences. */
  predicate Admits(capacity: nat, read: nat, reserve: nat, required: nat) {
    var used := (reserve - read) % WORD64;
    var free := (capacity - used) % WORD64;
    free >= required
  }

  /**
   The test means "the range fits behind the loaded read position" exactly when the loaded reserve
   position is at most the capacity ahead of it. Beyond that it admits whatever it is asked.
   */
  lemma AdmissionIsExact(capacity: nat, read: nat, reserve: nat, required: nat)
    requires capacity < WORD64 && required > 0
    requires read <= reserve && reserve + required - read <= WORD64
    ensures (Admits(capacity, read, reserve, required) <==> reserve + required <= read + capacity)
            <==> reserve <= read + capacity
  {
    assert (reserve - read) % WORD64 == reserve - read;
    if reserve > read + capacity {
      assert (capacity - (reserve - read)) % WORD64 == capacity - (reserve - read) + WORD64;
    }
  }

  lemma AdmitsWithin(capacity: nat, read: nat, reserve: nat, required: nat)
    requires capacity < WORD64 && read <= reserve <= read + capacity
    ensures Admits(capacity, read, reserve, required) <==> reserve + required <= read + capacity
  {
    assert (reserve - read) % WORD64 == reserve - read;
  }
}
