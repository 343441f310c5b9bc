/**
 Frames on the sockets of the process pool: a fixed header whose last eight bytes are the size of the
 body, and the body. Streams are read and written in arbitrary pieces.
 */
module PoolFraming {
  import opened Bytes

  /** `at` is where the size field starts; the header ends with it. */
  datatype Frame = Frame(header: seq<byte>, body: seq<byte>)

  function BodySize(at: nat, header: seq<byte>): nat
    requires |header| == at + 8
  {
    FromLe(header[at..])
  }

  predicate WellFramed(at: nat, f: Frame) {
    |f.header| == at + 8 && BodySize(at, f.header) == |f.body|
  }

  function FrameBytes(f: Frame): seq<byte> {
    f.header + f.body
  }

  function Wire(frames: seq<Frame>): seq<byte> {
    if frames == [] then [] else FrameBytes(frames[0]) + Wire(frames[1..])
  }

  /** How many bytes a receiver still wants, having read `got` of a frame: first the header, then the body. */
  function Needed(at: nat, got: seq<byte>): int {
    if |got| < at + 8 then at + 8 - |got| else at + 8 + BodySize(at, got[..at + 8]) - |got|
  }

  lemma {:induction false} WireConcat(a: seq<Frame>, b: seq<Frame>)
    ensures Wire(a + b) == Wire(a) + Wire(b)
    decreases |a|
  {
    hide FrameBytes;
    if a == [] {
      assert a + b == b;
    } else {
      assert (a + b)[0] == a[0] && (a + b)[1..] == a[1..] + b;
      WireConcat(a[1..], b);
    }
  }

  lemma WireOne(f: Frame)
    ensures Wire([f]) == FrameBytes(f)
  {
    assert [f][1..] == [];
  }

  lemma WireAppend(frames: seq<Frame>, f: Frame)
    ensures Wire(frames + [f]) == Wire(frames) + FrameBytes(f)
  {
    WireConcat(frames, [f]);
    WireOne(f);
  }

  /** Frame k occupies the wire right behind the frames before it. */
  lemma WireSplit(frames: seq<Frame>, k: nat)
    requires k <= |frames|
    ensures Wire(frames[..k]) <= Wire(frames)
    ensures k == |frames| ==> Wire(frames[..k]) == Wire(frames)
    ensures k < |frames| ==> Wire(frames[..k]) + FrameBytes(frames[k]) <= Wire(frames)
    ensures k < |frames| ==> Wire(frames[..k + 1]) == Wire(frames[..k]) + FrameBytes(frames[k])
  {
    hide FrameBytes, Wire;
    assert frames[..k] + frames[k..] == frames;
    WireConcat(frames[..k], frames[k..]);
    if k == |frames| {
      assert frames[..k] == frames;
    } else {
      assert frames[..k + 1] == frames[..k] + [frames[k]];
      assert frames[..k + 1] + frames[k + 1..] == frames;
      WireAppend(frames[..k], frames[k]);
      WireConcat(frames[..k + 1], frames[k + 1..]);
    }
  }

  // ---------- A stream and its receiver ----------

  /**
   One direction of a socket: the frames its writers set out to send, the bytes they have written,
   how many of those the receiver has read, what it holds of the current frame, and how many frames
   it has taken off.
   */
  datatype Link = Link(sent: seq<Frame>, bytes: seq<byte>, read: nat, got: seq<byte>, taken: nat)

  ghost predicate LinkOk(at: nat, l: Link) {
    && (forall i :: 0 <= i < |l.sent| ==> WellFramed(at, l.sent[i]))
    && l.bytes <= Wire(l.sent)
    && l.taken <= |l.sent| && l.read <= |l.bytes|
    && l.read == |Wire(l.sent[..l.taken])| + |l.got|
    && l.got == l.bytes[l.read - |l.got|..l.read]
    && (l.got != [] ==> l.taken < |l.sent| && l.got <= FrameBytes(l.sent[l.taken]))
  }

  /** A writer sets out to send a frame. */
  function Queue(l: Link, f: Frame): Link {
    l.(sent := l.sent + [f])
  }

  function Write(l: Link, piece: seq<byte>): Link {
    l.(bytes := l.bytes + piece)
  }

  function Read(l: Link, n: nat): Link
    requires l.read + n <= |l.bytes|
  {
    l.(read := l.read + n, got := l.got + l.bytes[l.read..l.read + n])
  }

  function Take(l: Link): Link {
    l.(got := [], taken := l.taken + 1)
  }

  lemma QueueOk(at: nat, l: Link, f: Frame)
    requires LinkOk(at, l) && WellFramed(at, f)
    ensures LinkOk(at, Queue(l, f))
  {
    WireAppend(l.sent, f);
    assert Queue(l, f).sent[..l.taken] == l.sent[..l.taken];
  }

  lemma WriteOk(at: nat, l: Link, piece: seq<byte>)
    requires LinkOk(at, l) && l.bytes + piece <= Wire(l.sent)
    ensures LinkOk(at, Write(l, piece))
  {
    var l' := Write(l, piece);
    assert l'.bytes[l'.read - |l'.got|..l'.read] == l.bytes[l.read - |l.got|..l.read];
  }

  /** A partly read frame tells, once its header is in, how long it is. */
  lemma NeededOfPrefix(at: nat, f: Frame, got: seq<byte>)
    requires WellFramed(at, f) && got <= FrameBytes(f)
    ensures Needed(at, got) == if |got| < at + 8 then at + 8 - |got| else |FrameBytes(f)| - |got|
  {
    if |got| >= at + 8 {
      assert got[..at + 8] == f.header;
    }
  }

  /** What a receiver has read is where it should be on the wire. */
  lemma GotOnWire(at: nat, l: Link, n: nat)
    requires LinkOk(at, l) && l.read + n <= |l.bytes| && 0 < n
    ensures l.taken < |l.sent| && |Wire(l.sent[..l.taken])| + |FrameBytes(l.sent[l.taken])| <= |Wire(l.sent)|
    ensures l.got + l.bytes[l.read..l.read + n] == Wire(l.sent)[l.read - |l.got|..l.read + n]
  {
    hide FrameBytes, Wire;
    WireSplit(l.sent, l.taken);
  }

  lemma FrameOnWire(frames: seq<Frame>, k: nat, n: nat)
    requires k < |frames| && n <= |FrameBytes(frames[k])|
    ensures var base := |Wire(frames[..k])|;
            base + n <= |Wire(frames)| && Wire(frames)[base..base + n] <= FrameBytes(frames[k])
  {
    hide FrameBytes, Wire;
    WireSplit(frames, k);
  }

  /** However little a read returns, the receiver stays inside the frame it is reading. */
  lemma ReadOk(at: nat, l: Link, n: nat)
    requires LinkOk(at, l) && 0 < n <= Needed(at, l.got) && l.read + n <= |l.bytes|
    ensures LinkOk(at, Read(l, n))
  {
    hide FrameBytes, Wire, BodySize, Needed;
    GotOnWire(at, l, n);
    NeededOfPrefix(at, l.sent[l.taken], l.got);
    NeededInside(at, l.sent[l.taken], l.got);
    FrameOnWire(l.sent, l.taken, |l.got| + n);
    var l' := Read(l, n);
    assert l'.got == l'.bytes[l'.read - |l'.got|..l'.read];
  }

  lemma NeededInside(at: nat, f: Frame, got: seq<byte>)
    requires WellFramed(at, f) && got <= FrameBytes(f)
    ensures Needed(at, got) <= |FrameBytes(f)| - |got|
  {
    NeededOfPrefix(at, f, got);
  }

  /** When nothing more is needed the receiver holds exactly the next frame that was sent. */
  lemma FrameComplete(at: nat, l: Link)
    requires LinkOk(at, l) && Needed(at, l.got) == 0
    ensures l.taken < |l.sent| && l.got == FrameBytes(l.sent[l.taken])
    ensures |l.got| >= at + 8 && Frame(l.got[..at + 8], l.got[at + 8..]) == l.sent[l.taken]
  {
    var f := l.sent[l.taken];
    NeededOfPrefix(at, f, l.got);
    assert l.got == FrameBytes(f);
  }

  lemma TakeOk(at: nat, l: Link)
    requires LinkOk(at, l) && Needed(at, l.got) == 0
    ensures LinkOk(at, Take(l))
  {
    FrameComplete(at, l);
    hide FrameBytes, Wire, Needed;
    WireSplit(l.sent, l.taken);
  }

  // ---------- A whole stream at once ----------

  /** The complete frames at the front of a stream. */
  function Decode(at: nat, stream: seq<byte>): (frames: seq<Frame>)
    ensures forall i :: 0 <= i < |frames| ==> WellFramed(at, frames[i])
    decreases |stream|
  {
    if |stream| < at + 8 || |stream| < at + 8 + BodySize(at, stream[..at + 8]) then []
    else
      var n := at + 8 + BodySize(at, stream[..at + 8]);
      [Frame(stream[..at + 8], stream[at + 8..n])] + Decode(at, stream[n..])
  }

  /** How many of the frames a stream of w bytes holds whole. */
  function WholeFrames(frames: seq<Frame>, w: nat): nat {
    if frames == [] || w < |FrameBytes(frames[0])| then 0
    else 1 + WholeFrames(frames[1..], w - |FrameBytes(frames[0])|)
  }

  lemma {:induction false} WholeFramesBound(frames: seq<Frame>, w: nat)
    ensures WholeFrames(frames, w) <= |frames|
    ensures w >= |Wire(frames)| ==> WholeFrames(frames, w) == |frames|
    decreases |frames|
  {
    hide FrameBytes;
    if frames != [] && w >= |FrameBytes(frames[0])| {
      WholeFramesBound(frames[1..], w - |FrameBytes(frames[0])|);
    }
  }

  /** One frame comes off the front of a stream exactly if the stream holds it whole. */
  lemma DecodeFirst(at: nat, f: Frame, rest: seq<byte>, stream: seq<byte>)
    requires WellFramed(at, f) && stream <= FrameBytes(f) + rest
    ensures |stream| >= |FrameBytes(f)| ==>
              stream[|FrameBytes(f)|..] <= rest && Decode(at, stream) == [f] + Decode(at, stream[|FrameBytes(f)|..])
    ensures |stream| < |FrameBytes(f)| ==> Decode(at, stream) == []
  {
    hide BodySize;
    var n := |FrameBytes(f)|;
    if |stream| >= at + 8 {
      assert stream[..at + 8] == f.header;
      if |stream| >= n {
        assert stream[at + 8..n] == f.body && stream[n..] <= rest;
        assert Decode(at, stream) == [Frame(stream[..at + 8], stream[at + 8..n])] + Decode(at, stream[n..]);
      }
    }
  }

  /**
   Framing round trip: a stream cut off anywhere decodes to exactly the frames it holds whole, in
   order, and nothing else; a stream that is not cut off decodes to all of them.
   */
  lemma {:induction false} DecodeRoundTrip(at: nat, frames: seq<Frame>, stream: seq<byte>)
    requires forall i :: 0 <= i < |frames| ==> WellFramed(at, frames[i])
    requires stream <= Wire(frames)
    ensures WholeFrames(frames, |stream|) <= |frames|
    ensures Decode(at, stream) == frames[..WholeFrames(frames, |stream|)]
    ensures stream == Wire(frames) ==> Decode(at, stream) == frames
    decreases |frames|
  {
    hide FrameBytes, Decode, BodySize;
    WholeFramesBound(frames, |stream|);
    if frames == [] {
      DecodeEmpty(at);
    } else {
      var n := |FrameBytes(frames[0])|;
      DecodeFirst(at, frames[0], Wire(frames[1..]), stream);
      if |stream| >= n {
        DecodeRoundTrip(at, frames[1..], stream[n..]);
        var k := WholeFrames(frames[1..], |stream| - n);
        assert frames[..k + 1] == [frames[0]] + frames[1..][..k];
      }
    }
  }

  lemma DecodeEmpty(at: nat)
    ensures Decode(at, []) == []
  {
  }

  // ---------- The loops that read and write a socket ----------

  /** What one call of read or write returns: a count, an interruption, an error, or zero. */
  datatype Call = Moved(n: nat) | Interrupted | Error

  /** The sum of the counts. */
  function Counts(calls: seq<Call>): nat {
    if calls == [] then 0
    else Counts(calls[..|calls| - 1]) + (if calls[|calls| - 1].Moved? then calls[|calls| - 1].n else 0)
  }

  lemma OneMoreCount(calls: seq<Call>, k: nat)
    requires k < |calls|
    ensures Counts(calls[..k + 1]) == Counts(calls[..k]) + if calls[k].Moved? then calls[k].n else 0
  {
    assert calls[..k + 1][..k] == calls[..k];
  }

  datatype ReadResult = ReadAll(data: seq<byte>) | Eof | ReadFailed

  lemma SliceGrows(s: seq<byte>, a: nat, b: nat, c: nat)
    requires a <= b <= c <= |s|
    ensures s[a..b] + s[b..c] == s[a..c]
  {
  }

  /** One direction of a socket as a writer and a reader see it. */
  class Socket {
    var bytes: seq<byte>
    var consumed: nat

    constructor ()
      ensures bytes == [] && consumed == 0
    {
      bytes, consumed := [], 0;
    }

    /**
     WriteExact under a script of what successive calls of write return; when the script ends, the
     rest goes out at once. `used` calls of the script are made. An interrupted call is made again, and
     only an error or a count of zero ends the loop before all the bytes are in the stream; then those
     are there that the calls before it moved.
     */
    method WriteExact(data: seq<byte>, script: seq<Call>) returns (ok: bool, ghost sent: nat, ghost used: nat)
      modifies this`bytes
      ensures sent <= |data| && bytes == old(bytes) + data[..sent] && (ok <==> sent == |data|)
      ensures used <= |script|
      ensures !ok ==>
                && 0 < used && (script[used - 1] == Error || script[used - 1] == Moved(0))
                && sent == Counts(script[..used - 1])
      ensures forall k :: 0 <= k < used && (ok || k < used - 1) ==> script[k] != Error && script[k] != Moved(0)
      ensures used < |script| && ok ==> |data| <= Counts(script[..used])
    {
      var written, k := 0, 0;
      while written < |data|
        invariant 0 <= written <= |data| && 0 <= k <= |script|
        invariant bytes == old(bytes) + data[..written]
        invariant forall j :: 0 <= j < k ==> script[j] != Error && script[j] != Moved(0)
        invariant k < |script| || written < |data| ==>
                    written == if Counts(script[..k]) < |data| then Counts(script[..k]) else |data|
        decreases |script| - k, |data| - written
      {
        var rc := if k < |script| then script[k] else Moved(|data| - written);
        if k < |script| {
          OneMoreCount(script, k);
          k := k + 1;
        }
        if rc.Interrupted? { continue; }
        if rc.Error? || rc.n == 0 { return false, written, k; }
        var n := if rc.n < |data| - written then rc.n else |data| - written;
        bytes := bytes + data[written..written + n];
        written := written + n;
      }
      return true, written, k;
    }

    /**
     ReadExact: all the bytes asked for, in order and whatever pieces they come in; or Eof when the
     stream ends first; or a failure, only at a call that is an error, with what the calls before it
     moved consumed. It never consumes more than it was asked for.
     */
    method ReadExact(size: nat, script: seq<Call>) returns (result: ReadResult, ghost used: nat)
      requires consumed <= |bytes|
      modifies this`consumed
      ensures old(consumed) <= consumed <= |bytes| && consumed - old(consumed) <= size
      ensures result.ReadAll? ==> consumed == old(consumed) + size && result.data == bytes[old(consumed)..consumed]
      ensures result.Eof? ==> consumed == |bytes| < old(consumed) + size
      ensures used <= |script|
      ensures result.ReadFailed? ==>
                && 0 < used && script[used - 1] == Error && consumed == old(consumed) + Counts(script[..used - 1])
                && consumed < old(consumed) + size && consumed < |bytes|
      ensures forall k :: 0 <= k < used && (!result.ReadFailed? || k < used - 1) ==> script[k] != Error
    {
      var data: seq<byte>, k := [], 0;
      ghost var moved := 0;
      while |data| < size
        invariant |data| <= size && 0 <= k <= |script|
        invariant consumed == old(consumed) + |data| <= |bytes| && data == bytes[old(consumed)..consumed]
        invariant forall j :: 0 <= j < k ==> script[j] != Error
        invariant moved == Counts(script[..k])
        invariant consumed < |bytes| && |data| < size && k < |script| ==> |data| == moved
        decreases |script| - k, size - |data|
      {
        hide Counts;
        var left, want := |bytes| - consumed, size - |data|;
        if left == 0 { return Eof, k; }
        var rc := if k < |script| then script[k] else Moved(want);
        if k < |script| {
          OneMoreCount(script, k);
          moved := moved + if rc.Moved? then rc.n else 0;
          k := k + 1;
        }
        if rc.Interrupted? || rc == Moved(0) { continue; }
        if rc.Error? { return ReadFailed, k; }
        var n := if rc.n < want then rc.n else want;
        n := if n < left then n else left;
        assert n == rc.n || n == want || n == left;
        var piece := bytes[consumed..consumed + n];
        SliceGrows(bytes, old(consumed), consumed, consumed + n);
        data := data + piece;
        consumed := consumed + n;
      }
      return ReadAll(data), k;
    }
  }
}
