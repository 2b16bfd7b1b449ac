/** Length-prefixed frames with deferred flush.  The layout is that of the "Framed vs. unframed
    transport" section of the Apache Thrift "Thrift Remote Procedure Call" specification: a
    four-byte big-endian length, then that many bytes. */
module Framing {

  import opened ThriftMessage

  const DEFAULT_MAX_LENGTH: nat := 16384000

  // ------------------------------------------------------------------- frames

  /** `uint32(size)` drops what does not fit. */
  function EncodeFrame(payload: Bytes): (r: Bytes)
    ensures |r| == 4 + |payload|
  {
    EncodeU32(|payload| % 0x1_0000_0000) + payload
  }

  function EncodeFrames(payloads: seq<Bytes>): Bytes {
    if payloads == [] then [] else EncodeFrame(payloads[0]) + EncodeFrames(payloads[1..])
  }

  datatype ReadError = UnexpectedFrameSize(size: nat) | HeaderIncomplete | IncorrectSize(size: nat) | DataIncomplete

  datatype ReadResult = Frame(payload: Bytes) | Error(error: ReadError)

  /** `ReadFrame` on what the peer sent: the result and what is left to read. */
  function ReadFrame(stream: Bytes, maxLength: nat): (r: (ReadResult, Bytes))
    ensures r.0.Frame? ==> |r.1| < |stream|
  {
    if |stream| < 4 then (Error(HeaderIncomplete), [])
    else
      var size := DecodeU32(stream[..4]);
      if size > maxLength then (Error(IncorrectSize(size)), stream[4..])
      else if |stream| < 4 + size then (Error(DataIncomplete), [])
      else (Frame(stream[4..4 + size]), stream[4 + size..])
  }

  /** Reading until the first error. */
  function ReadFrames(stream: Bytes, maxLength: nat): (seq<Bytes>, ReadError)
    decreases |stream|
  {
    var (r, rest) := ReadFrame(stream, maxLength);
    match r
    case Error(e) => ([], e)
    case Frame(p) => var (more, e) := ReadFrames(rest, maxLength); ([p] + more, e)
  }

  predicate Sendable(payloads: seq<Bytes>, maxLength: nat) {
    maxLength < 0x1_0000_0000 && forall i :: 0 <= i < |payloads| ==> |payloads[i]| <= maxLength
  }

  lemma ReadFrameFirst(payload: Bytes, rest: Bytes, maxLength: nat)
    requires |payload| <= maxLength < 0x1_0000_0000
    ensures ReadFrame(EncodeFrame(payload) + rest, maxLength) == (Frame(payload), rest)
  {
    var stream := EncodeFrame(payload) + rest;
    DecodeEncodeU32(|payload|);
    assert stream[..4] == EncodeU32(|payload|);
    assert stream[4..4 + |payload|] == payload && stream[4 + |payload|..] == rest;
  }

  /** A stream cut inside its first frame yields no frame. */
  lemma ReadFrameCut(payload: Bytes, rest: Bytes, cut: nat, maxLength: nat)
    requires |payload| <= maxLength < 0x1_0000_0000 && cut < 4 + |payload|
    ensures ReadFrame((EncodeFrame(payload) + rest)[..cut], maxLength).0 ==
            Error(if cut < 4 then HeaderIncomplete else DataIncomplete)
  {
    if cut >= 4 {
      DecodeEncodeU32(|payload|);
      assert (EncodeFrame(payload) + rest)[..cut][..4] == EncodeU32(|payload|);
    }
  }

  lemma ReadFramesCons(payload: Bytes, rest: Bytes, maxLength: nat)
    requires |payload| <= maxLength < 0x1_0000_0000
    ensures ReadFrames(EncodeFrame(payload) + rest, maxLength) ==
            ([payload] + ReadFrames(rest, maxLength).0, ReadFrames(rest, maxLength).1)
  {
    ReadFrameFirst(payload, rest, maxLength);
  }

  /** A frame longer than allowed is refused once its length is read. */
  lemma ReadFrameTooLong(payload: Bytes, rest: Bytes, maxLength: nat)
    requires maxLength < |payload| < 0x1_0000_0000
    ensures ReadFrame(EncodeFrame(payload) + rest, maxLength) == (Error(IncorrectSize(|payload|)), payload + rest)
  {
    var stream := EncodeFrame(payload) + rest;
    DecodeEncodeU32(|payload|);
    assert stream[..4] == EncodeU32(|payload|) && stream[4..] == payload + rest;
  }

  /** 256 bytes go behind a length of 0, 0, 1, 0. */
  lemma LengthOnTheWire(payload: Bytes)
    requires |payload| == 256
    ensures EncodeFrame(payload) == [0, 0, 1, 0] + payload
  {
  }

  /** `k` is how many of `payloads` are complete in the first `cut` bytes of their encoding. */
  ghost predicate Complete(payloads: seq<Bytes>, cut: nat, k: nat) {
    && k <= |payloads| && |EncodeFrames(payloads[..k])| <= cut
    && (k < |payloads| ==> cut < |EncodeFrames(payloads[..k + 1])|)
  }

  lemma CompleteNone(payload: Bytes, tail: seq<Bytes>, cut: nat)
    requires cut < 4 + |payload|
    ensures Complete([payload] + tail, cut, 0)
  {
    EncodeFramesCons(payload, []);
    assert ([payload] + tail)[..1] == [payload] + [];
  }

  lemma CompleteMore(payload: Bytes, tail: seq<Bytes>, n: nat, k: nat)
    requires Complete(tail, n, k)
    ensures Complete([payload] + tail, 4 + |payload| + n, k + 1)
  {
    EncodeFramesCons(payload, tail[..k]);
    assert ([payload] + tail)[..k + 1] == [payload] + tail[..k];
    if k < |tail| {
      EncodeFramesCons(payload, tail[..k + 1]);
      assert ([payload] + tail)[..k + 2] == [payload] + tail[..k + 1];
    }
  }

  lemma ReadMore(payload: Bytes, tail: seq<Bytes>, n: nat, maxLength: nat)
    requires |payload| <= maxLength < 0x1_0000_0000 && n <= |EncodeFrames(tail)|
    ensures |EncodeFrames([payload] + tail)| == 4 + |payload| + |EncodeFrames(tail)|
    ensures ReadFrames(EncodeFrames([payload] + tail)[..4 + |payload| + n], maxLength).0 ==
            [payload] + ReadFrames(EncodeFrames(tail)[..n], maxLength).0
  {
    EncodeFramesCons(payload, tail);
    var f, rest := EncodeFrame(payload), EncodeFrames(tail);
    assert (f + rest)[..4 + |payload| + n] == f + rest[..n];
    ReadFramesCons(payload, rest[..n], maxLength);
  }

  lemma ReadNone(payload: Bytes, tail: seq<Bytes>, cut: nat, maxLength: nat)
    requires |payload| <= maxLength < 0x1_0000_0000 && cut < 4 + |payload|
    ensures cut <= |EncodeFrames([payload] + tail)|
    ensures ReadFrames(EncodeFrames([payload] + tail)[..cut], maxLength).0 == []
  {
    EncodeFramesCons(payload, tail);
    ReadFrameCut(payload, EncodeFrames(tail), cut, maxLength);
  }

  /** Whatever part of the stream has arrived, the reader has got exactly the payloads whose
      encoding is complete, empty ones included, in order. */
  lemma {:induction false} ReadBackPrefix(payloads: seq<Bytes>, cut: nat, maxLength: nat) returns (k: nat)
    requires Sendable(payloads, maxLength) && cut <= |EncodeFrames(payloads)|
    ensures Complete(payloads, cut, k)
    ensures ReadFrames(EncodeFrames(payloads)[..cut], maxLength).0 == payloads[..k]
    decreases |payloads|
  {
    k := 0;
    if payloads != [] {
      var p, tail := payloads[0], payloads[1..];
      assert payloads == [p] + tail;
      assert |EncodeFrames(payloads)| == 4 + |p| + |EncodeFrames(tail)| by {
        EncodeFramesCons(p, tail);
      }
      if cut < 4 + |p| {
        CompleteNone(p, tail, cut);
        ReadNone(p, tail, cut, maxLength);
      } else {
        var n := cut - 4 - |p|;
        var k' := ReadBackPrefix(tail, n, maxLength);
        k := k' + 1;
        CompleteMore(p, tail, n, k');
        ReadMore(p, tail, n, maxLength);
        assert [p] + tail[..k'] == payloads[..k];
      }
    }
  }

  lemma EncodeFramesCons(payload: Bytes, tail: seq<Bytes>)
    ensures EncodeFrames([payload] + tail) == EncodeFrame(payload) + EncodeFrames(tail)
    ensures |EncodeFrames([payload] + tail)| == 4 + |payload| + |EncodeFrames(tail)|
  {
    assert ([payload] + tail)[1..] == tail;
  }

  /** The whole stream gives back the whole sequence, and then a clean end of file. */
  lemma {:induction false} ReadBackAll(payloads: seq<Bytes>, maxLength: nat)
    requires Sendable(payloads, maxLength)
    ensures ReadFrames(EncodeFrames(payloads), maxLength) == (payloads, HeaderIncomplete)
    decreases |payloads|
  {
    if payloads != [] {
      ReadFramesCons(payloads[0], EncodeFrames(payloads[1..]), maxLength);
      ReadBackAll(payloads[1..], maxLength);
      assert [payloads[0]] + payloads[1..] == payloads;
    }
  }

  lemma {:induction false} EncodeFramesAppend(a: seq<Bytes>, b: seq<Bytes>)
    ensures EncodeFrames(a + b) == EncodeFrames(a) + EncodeFrames(b)
  {
    if a == [] {
      assert a + b == b;
    } else {
      EncodeFramesAppend(a[1..], b);
      EncodeFramesCons(a[0], a[1..] + b);
      EncodeFramesCons(a[0], a[1..]);
      assert [a[0]] + (a[1..] + b) == a + b && [a[0]] + a[1..] == a;
      Associative(EncodeFrame(a[0]), EncodeFrames(a[1..]), EncodeFrames(b));
    }
  }

  lemma Associative(a: Bytes, b: Bytes, c: Bytes)
    ensures a + (b + c) == a + b + c
  {
  }

  // ------------------------------------------------------------------ flushing

  /** `FlushTransport`: the frame count after a successful `FlushBuffer(force)`. */
  function CountAfterFlush(buffered: nat, force: bool, timeUp: bool, maxBuffered: nat): (n: nat)
    ensures n == 0 || n < maxBuffered
    ensures force || timeUp ==> n == 0
  {
    if force || buffered + 1 >= maxBuffered || timeUp then 0 else buffered + 1
  }

  /** The frames waiting after `k` calls that are neither forced nor late. */
  function WaitingAfter(k: nat, maxBuffered: nat): nat {
    if k == 0 then 0 else CountAfterFlush(WaitingAfter(k - 1, maxBuffered), false, false, maxBuffered)
  }

  /** Frames are kept back until there are `maxBuffered`, and then all go. */
  lemma {:induction false} FlushedInBatches(k: nat, maxBuffered: nat)
    requires maxBuffered > 0
    ensures WaitingAfter(k, maxBuffered) == k % maxBuffered
  {
    if k > 0 {
      FlushedInBatches(k - 1, maxBuffered);
      NextRemainder(k - 1, maxBuffered);
    }
  }

  lemma NextRemainder(k: nat, m: nat)
    requires m > 0
    ensures (k + 1) % m == if k % m + 1 < m then k % m + 1 else 0
  {
    var q, r := k / m, k % m;
    assert k + 1 == q * m + (r + 1);
    if r + 1 < m {
      Remainder(k + 1, m, q, r + 1);
    } else {
      assert k + 1 == (q + 1) * m + 0;
      Remainder(k + 1, m, q + 1, 0);
    }
  }

  lemma Remainder(x: nat, m: nat, q: nat, r: nat)
    requires m > 0 && x == q * m + r && r < m
    ensures x % m == r
  {
    var d := q - x / m;
    assert d * m == x % m - r;
  }

  datatype Fault = NoFault | HeaderFault | DataFault | FlushFault

  class BufferedFramedTransport {
    const maxLength: nat
    const maxBuffered: nat
    var buffer: Bytes             // the frame being put together
    var writer: Bytes             // bufio.Writer: written, not yet on the wire
    var nbuffered: nat
    var wire: Bytes               // bytes handed to the socket
    var incoming: Bytes           // bytes the peer sent, not yet read
    var frameSize: nat            // non-zero while the streaming reader is inside a frame
    ghost var frames: seq<Bytes>  // payloads flushed into the writer so far

    /** On the wire followed by still buffered is the concatenation of the encodings, and all but
        the last `nbuffered` frames are on the wire. */
    ghost predicate Valid()
      reads this
    {
      && wire + writer == EncodeFrames(frames)
      && nbuffered <= |frames|
      && |EncodeFrames(frames[..|frames| - nbuffered])| <= |wire|
    }

    constructor (maxBuffered: nat, maxLength: nat)
      ensures Valid() && this.maxBuffered == maxBuffered && this.maxLength == maxLength
      ensures frames == [] && nbuffered == 0 && frameSize == 0
      ensures buffer == [] && wire == [] && writer == [] && incoming == []
    {
      this.maxBuffered, this.maxLength := maxBuffered, maxLength;
      buffer, writer, wire, incoming, frames := [], [], [], [], [];
      nbuffered, frameSize := 0, 0;
    }

    /** Frames of up to 16384000 bytes, unless told otherwise. */
    constructor Default(maxBuffered: nat)
      ensures Valid() && this.maxBuffered == maxBuffered && maxLength == 16384000
      ensures frames == [] && nbuffered == 0 && frameSize == 0
      ensures buffer == [] && wire == [] && writer == [] && incoming == []
    {
      this.maxBuffered, maxLength := maxBuffered, DEFAULT_MAX_LENGTH;
      buffer, writer, wire, incoming, frames := [], [], [], [], [];
      nbuffered, frameSize := 0, 0;
    }

    method Write(buf: Bytes)
      modifies this`buffer
      ensures buffer == old(buffer) + buf
    {
      buffer := buffer + buf;
    }

    /** `timeUp` is the clock test.  Reads only. */
    function NeedFlush(timeUp: bool): bool
      reads this
    {
      nbuffered != 0 && (nbuffered >= maxBuffered || timeUp)
    }

    /** A flush that fails may have put part of the writer on the wire. */
    method FlushTransport(force: bool, timeUp: bool, part: nat, fault: Fault) returns (ok: bool)
      modifies this`writer, this`wire, this`nbuffered
      ensures wire + writer == old(wire + writer) && (old(Valid()) && ok ==> Valid())
      ensures ok && old(nbuffered) > 0 && (force || old(NeedFlush(timeUp))) ==> nbuffered == 0 && writer == []
      ensures old(wire) <= wire
      ensures ok && !(old(nbuffered) > 0 && (force || old(NeedFlush(timeUp)))) ==>
        nbuffered == old(nbuffered) && wire == old(wire)
      ensures !ok <==> fault.FlushFault? && old(nbuffered) > 0 && (force || old(NeedFlush(timeUp)))
    {
      ok := true;
      if nbuffered > 0 && (force || NeedFlush(timeUp)) {
        if fault.FlushFault? {
          Spill(part);
          return false;
        }
        wire, writer := wire + writer, [];
        nbuffered := 0;
        assert frames[..|frames|] == frames;
      }
    }

    /** The 64 KB writer below may push out the first `spill` bytes on its own. */
    method Spill(spill: nat)
      modifies this`writer, this`wire
      ensures wire + writer == old(wire + writer) && old(wire) <= wire
    {
      var n := if spill < |writer| then spill else |writer|;
      assert writer == writer[..n] + writer[n..];
      wire, writer := wire + writer[..n], writer[n..];
    }

    /** The first half of `FlushBuffer`: length and data go to the writer. */
    method PutFrame(fault: Fault) returns (ok: bool)
      requires Valid()
      modifies this`buffer, this`writer, this`nbuffered, this`frames
      ensures ok ==> Valid() && frames == old(frames) + [old(buffer)] && buffer == [] && nbuffered == old(nbuffered) + 1
      ensures !ok ==> frames == old(frames) && wire + writer <= EncodeFrames(old(frames) + [old(buffer)])
      ensures !ok <==> fault.HeaderFault? || (fault.DataFault? && old(buffer) != [])
    {
      var size := |buffer|;
      AddFrame(wire, writer, frames, buffer, EncodeU32(size % 0x1_0000_0000));
      if fault.HeaderFault? {
        return false;
      }
      writer := writer + EncodeU32(size % 0x1_0000_0000);
      if size > 0 {
        if fault.DataFault? {
          return false;
        }
        writer := writer + buffer;
      }
      nbuffered := nbuffered + 1;
      assert writer == old(writer) + EncodeFrame(buffer);
      assert wire + writer == EncodeFrames(frames + [buffer]);
      assert (frames + [buffer])[..|frames| + 1 - nbuffered] == frames[..|frames| - old(nbuffered)];
      frames := frames + [buffer];
      buffer := [];
      return true;
    }

    /** Close the current frame.  However the clock, the writer below and the flags behave, a
        success adds exactly that frame to the stream and leaves fewer than `maxBuffered`
        frames waiting; a failure leaves on the wire some part of the stream with that frame. */
    method FlushBuffer(force: bool, timeUp: bool, spill: nat, fault: Fault) returns (ok: bool)
      requires Valid()
      modifies this`buffer, this`writer, this`wire, this`nbuffered, this`frames
      ensures ok ==>
        && Valid() && frames == old(frames) + [old(buffer)] && buffer == []
        && nbuffered == CountAfterFlush(old(nbuffered), force, timeUp, maxBuffered)
        && (nbuffered == 0 ==> writer == [])
      ensures !ok ==> old(wire) <= wire <= EncodeFrames(old(frames) + [old(buffer)])
      ensures !ok <==> fault.HeaderFault? || (fault.DataFault? && old(buffer) != []) ||
                       (fault.FlushFault? && CountAfterFlush(old(nbuffered), force, timeUp, maxBuffered) == 0)
    {
      ok := PutFrame(fault);
      Spill(spill);
      if ok {
        ok := FlushTransport(force, timeUp, spill, fault);
      }
    }

    /** `ReadFrame`; refused while the streaming reader is inside a frame. */
    method ReadNext() returns (r: ReadResult)
      modifies this`incoming
      ensures frameSize == 0 ==> (r, incoming) == ReadFrame(old(incoming), maxLength)
      ensures frameSize != 0 ==> r == Error(UnexpectedFrameSize(frameSize)) && incoming == old(incoming)
    {
      if frameSize != 0 {
        return Error(UnexpectedFrameSize(frameSize));
      }
      if |incoming| < 4 {
        incoming := [];
        return Error(HeaderIncomplete);
      }
      var size := DecodeU32(incoming[..4]);
      incoming := incoming[4..];
      if size > maxLength {
        return Error(IncorrectSize(size));
      }
      if |incoming| < size {
        incoming := [];
        return Error(DataIncomplete);
      }
      r := Frame(incoming[..size]);
      incoming := incoming[size..];
      assert old(incoming)[4..][..size] == old(incoming)[4..4 + size];
      assert old(incoming)[4..][size..] == old(incoming)[4 + size..];
    }

    /** What the reader loops do with a connection. */
    method ReadAll() returns (got: seq<Bytes>, error: ReadError)
      modifies this`incoming
      ensures (got, error) ==
        if frameSize == 0 then ReadFrames(old(incoming), maxLength) else ([], UnexpectedFrameSize(frameSize))
    {
      got := [];
      assert frameSize == 0 ==> [] + ReadFrames(incoming, maxLength).0 == ReadFrames(incoming, maxLength).0;
      while true
        invariant frameSize == 0 ==>
          ReadFrames(old(incoming), maxLength) ==
          (got + ReadFrames(incoming, maxLength).0, ReadFrames(incoming, maxLength).1)
        invariant frameSize != 0 ==> got == []
        decreases |incoming|
      {
        var r := ReadNext();
        match r
        case Error(e) =>
          assert got + [] == got;
          return got, e;
        case Frame(p) =>
          assert got + ([p] + ReadFrames(incoming, maxLength).0) == got + [p] + ReadFrames(incoming, maxLength).0;
          got := got + [p];
      }
    }
  }

  /** The stream with one more frame starts with the stream, and with the stream and its length. */
  lemma AddFrame(wire: Bytes, writer: Bytes, frames: seq<Bytes>, payload: Bytes, length: Bytes)
    requires wire + writer == EncodeFrames(frames) && EncodeFrame(payload) == length + payload
    ensures wire + (writer + EncodeFrame(payload)) == EncodeFrames(frames + [payload])
    ensures wire + writer <= EncodeFrames(frames + [payload])
    ensures wire + (writer + length) <= EncodeFrames(frames + [payload])
  {
    EncodeFramesAppend(frames, [payload]);
    assert EncodeFrames([payload]) == EncodeFrame(payload);
    assert wire + (writer + EncodeFrame(payload)) == wire + (writer + length) + payload;
  }
}
