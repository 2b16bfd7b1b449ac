/** `Request` as the object the source has, its slices pointing into heap buffers. */
module RequestObjects {

  import opened ThriftMessage
  import opened Memory
  import opened Requests

  type HeapSlice = Slice<array<byte>>

  ghost function Content(s: HeapSlice): Bytes
    requires s.Slice? && InBounds(s)
    reads if s.Slice? then {s.buf} else {}
  {
    s.buf[s.off..s.off + s.len]
  }

  method WriteAt(buf: array<byte>, at: nat, chunk: Bytes)
    requires at + |chunk| <= buf.Length
    modifies buf
    ensures buf[..] == OverwriteAt(old(buf[..]), at, chunk)
  {
    for i := 0 to |chunk|
      invariant buf[..at] == old(buf[..at])
      invariant buf[at..at + i] == chunk[..i]
      invariant buf[at + i..] == old(buf[at + i..])
    {
      buf[at + i] := chunk[i];
    }
    assert buf[..] == buf[..at] + buf[at..at + |chunk|] + buf[at + |chunk|..];
  }

  /** The writes of a `bytes.Buffer`, as far as they fit. */
  method WriteInPlace(buf: array<byte>, pos: nat, chunks: seq<Bytes>)
    modifies buf
    ensures buf[..] == WriteChunks(old(buf[..]), pos, chunks)
  {
    var i: nat, at: nat := 0, pos;
    while i < |chunks| && at + |chunks[i]| <= buf.Length
      invariant i <= |chunks|
      invariant WriteChunks(buf[..], at, chunks[i..]) == WriteChunks(old(buf[..]), pos, chunks)
    {
      assert chunks[i..][1..] == chunks[i + 1..];
      WriteAt(buf, at, chunks[i]);
      at := at + |chunks[i]|;
      i := i + 1;
    }
  }

  method WriteMessageBegin(buf: array<byte>, pos: nat, name: Name, typeId: byte, seqId: int32)
    modifies buf
    ensures buf[..] == WriteChunks(old(buf[..]), pos, HeaderChunks(name, typeId, seqId))
  {
    WriteInPlace(buf, pos, HeaderChunks(name, typeId, seqId));
  }

  /** Overwriting inside a window of the memory is overwriting that window. */
  lemma OverwriteWindow(mem: Bytes, off: nat, len: nat, start: nat, chunk: Bytes)
    requires off + len <= |mem| && start + |chunk| <= len
    ensures var after := OverwriteAt(mem, off + start, chunk);
      && after[off + start..off + len] == OverwriteAt(mem[off..off + len], start, chunk)[start..]
      && after[..off + start] == mem[..off + start]
      && after[off + start + |chunk|..] == mem[off + start + |chunk|..]
  {
    var after := OverwriteAt(mem, off + start, chunk);
    assert after[off + start..off + len] == chunk + mem[off + start + |chunk|..off + len];
    assert OverwriteAt(mem[off..off + len], start, chunk)[start..] == chunk + mem[off..off + len][start + |chunk|..];
  }

  /** From `mem` to `after` only a header at `start` of the frame at `off` was written. */
  ghost predicate HeaderOnly(mem: Bytes, after: Bytes, off: nat, len: nat, start: nat, h: Bytes)
    requires off + len <= |mem| == |after| && start + |h| <= len
  {
    && after[off + start..off + len] == OverwriteAt(mem[off..off + len], start, h)[start..]
    && after[..off + start] == mem[..off + start]
    && after[off + start + |h|..] == mem[off + start + |h|..]
  }

  lemma HeaderInWindow(mem: Bytes, off: nat, len: nat, start: nat, name: Name, typeId: byte, seqId: int32)
    requires off + len <= |mem| && start + FIXED_HEADER_LEN + |name| <= len
    ensures HeaderOnly(mem, WriteChunks(mem, off + start, HeaderChunks(name, typeId, seqId)), off, len, start,
                       Header(name, typeId, seqId))
  {
    HeaderInPlace(mem, off + start, name, typeId, seqId);
    OverwriteWindow(mem, off, len, start, Header(name, typeId, seqId));
  }

  /** The effect on a buffer of writing a header at `start` of the frame at `off`. */
  ghost predicate HeaderWritten(mem: Bytes, after: Bytes, off: nat, len: nat, start: nat,
                                name: Name, typeId: byte, seqId: int32)
    requires off + len <= |mem| == |after| && start <= len
  {
    && after == WriteChunks(mem, off + start, HeaderChunks(name, typeId, seqId))
    && (start + FIXED_HEADER_LEN + |name| <= len ==>
          HeaderOnly(mem, after, off, len, start, Header(name, typeId, seqId)))
  }

  /** A header with an empty name, written over an unreadable frame. */
  lemma UnreadableWritten(mem: Bytes, off: nat, len: nat, newSeq: int32)
    requires off + len <= |mem| && off + FIXED_HEADER_LEN <= |mem|
    ensures var frame := mem[off..off + len];
      WriteChunks(mem, off, HeaderChunks([], 0, newSeq))[off..off + len] ==
      (Header([], 0, newSeq) + if len < FIXED_HEADER_LEN then [] else frame[FIXED_HEADER_LEN..])[..len]
  {
    var h := Header([], 0, newSeq);
    HeaderInPlace(mem, off, [], 0, newSeq);
    var after := OverwriteAt(mem, off, h);
    if len < FIXED_HEADER_LEN {
      assert after[off..off + len] == h[..len];
    } else {
      assert after[off..off + len] == h + mem[off + FIXED_HEADER_LEN..off + len];
      assert mem[off..off + len][FIXED_HEADER_LEN..] == mem[off + FIXED_HEADER_LEN..off + len];
    }
  }

  /** Writing back the header a frame was decoded to leaves the frame studied in `Requests`. */
  lemma WrittenIsRewritten(mem: Bytes, after: Bytes, off: nat, len: nat, proxyRequest: bool, newSeq: int32)
    requires off + len <= |mem| == |after| && off + FIXED_HEADER_LEN <= |mem|
    requires var f := DecodeFields(mem[off..off + len]);
      && StartOf(proxyRequest, f.service) <= len
      && HeaderWritten(mem, after, off, len, StartOf(proxyRequest, f.service), f.name, f.typeId, newSeq)
    ensures var start := StartOf(proxyRequest, DecodeFields(mem[off..off + len]).service);
      after[off + start..off + len] == Rewritten(mem[off..off + len], proxyRequest, newSeq)
  {
    var frame := mem[off..off + len];
    if Decode(frame).Some? {
      FieldsRewriteFrame(frame, proxyRequest, newSeq);
    } else {
      UnreadableWritten(mem, off, len, newSeq);
    }
  }

  method WriteHeader(s: HeapSlice, start: nat, name: Name, typeId: byte, seqId: int32)
    requires s.Slice? && InBounds(s) && start <= s.len
    modifies s.buf
    ensures HeaderWritten(old(s.buf[..]), s.buf[..], s.off, s.len, start, name, typeId, seqId)
  {
    WriteMessageBegin(s.buf, s.off + start, name, typeId, seqId);
    if start + FIXED_HEADER_LEN + |name| <= s.len {
      HeaderInWindow(old(s.buf[..]), s.off, s.len, start, name, typeId, seqId);
    }
  }

  /** If `f` was read from the frame at `off` of `mem`, the frame left in `after` is that one
      rewritten. */
  ghost predicate LeavesRewritten(mem: Bytes, after: Bytes, off: nat, len: nat,
                                  f: Fields, proxyRequest: bool, newSeq: int32)
    requires off + len <= |mem| == |after| && StartOf(proxyRequest, f.service) <= len
  {
    var frame := mem[off..off + len];
    f == DecodeFields(frame) && off + FIXED_HEADER_LEN <= |mem| ==>
      after[off + StartOf(proxyRequest, f.service)..off + len] == Rewritten(frame, proxyRequest, newSeq)
  }

  lemma WrittenLeaves(mem: Bytes, after: Bytes, off: nat, len: nat, f: Fields, proxyRequest: bool, newSeq: int32)
    requires off + len <= |mem| == |after| && StartOf(proxyRequest, f.service) <= len
    requires HeaderWritten(mem, after, off, len, StartOf(proxyRequest, f.service), f.name, f.typeId, newSeq)
    ensures LeavesRewritten(mem, after, off, len, f, proxyRequest, newSeq)
  {
    if f == DecodeFields(mem[off..off + len]) && off + FIXED_HEADER_LEN <= |mem| {
      WrittenIsRewritten(mem, after, off, len, proxyRequest, newSeq);
    }
  }

  class Request {
    var service: Name
    var proxyRequest: bool
    var name: Name
    var typeId: byte
    var seqId: int32
    var data: HeapSlice
    var dataOrig: HeapSlice
    var respData: HeapSlice
    var respSeqId: int32
    var respTypeId: byte

    function Slices(): Buffers<array<byte>>
      reads this
    {
      Buffers(data, dataOrig, respData)
    }

    ghost predicate Valid()
      reads this
    {
      InBounds(data) && InBounds(dataOrig) && InBounds(respData)
    }

    function Header(): Fields
      reads this
    {
      Fields(service, name, typeId, seqId)
    }

    /** `NewRequest` and `DecodeRequest`. */
    constructor (data: HeapSlice, serviceInReq: bool)
      requires data.Slice? && InBounds(data)
      ensures Valid() && Slices() == Buffers(data, NoSlice, NoSlice)
      ensures proxyRequest == serviceInReq && Header() == DecodeFields(Content(data))
    {
      this.data, dataOrig, respData := data, NoSlice, NoSlice;
      proxyRequest, respSeqId, respTypeId := serviceInReq, 0, 0;
      var f := DecodeFields(data.buf[data.off..data.off + data.len]);
      service, name, typeId, seqId := f.service, f.name, f.typeId, f.seqId;
    }

    /** Slicing at `start` panics beyond the data; fields read from the data keep it inside, and
        then the data left is the rewritten frame. */
    method ReplaceSeqId(newSeq: int32)
      requires Valid() && (data.Slice? ==> StartOf(proxyRequest, service) <= data.len)
      modifies this`respSeqId, this`data, this`dataOrig, if data.Slice? then {data.buf} else {}
      ensures Valid()
      ensures old(data).NoSlice? ==> Slices() == old(Slices()) && respSeqId == old(respSeqId)
      ensures old(data).Slice? ==>
        && respSeqId == newSeq
        && Slices() == Shift(old(Slices()), StartOf(proxyRequest, service))
        && HeaderWritten(old(data.buf[..]), data.buf[..], old(data.off), old(data.len),
                         StartOf(proxyRequest, service), name, typeId, newSeq)
      ensures old(data).Slice? ==>
        && data.Slice? && data.buf == old(data).buf && data.off == old(data).off + StartOf(proxyRequest, service)
        && data.off + data.len == old(data).off + old(data).len
        && dataOrig == if proxyRequest && service != [] then old(data) else old(dataOrig)
      ensures old(data).Slice? ==>
        LeavesRewritten(old(data.buf[..]), data.buf[..], old(data.off), old(data.len), Header(), proxyRequest, newSeq)
    {
      ghost var was := data;
      ghost var mem := if was.Slice? then was.buf[..] else [];
      WriteSeqId(newSeq);
      if was.Slice? {
        WrittenLeaves(mem, was.buf[..], was.off, was.len, Header(), proxyRequest, newSeq);
      }
    }

    /** The writing, and what becomes of the slices. */
    method WriteSeqId(newSeq: int32)
      requires Valid() && (data.Slice? ==> StartOf(proxyRequest, service) <= data.len)
      modifies this`respSeqId, this`data, this`dataOrig, if data.Slice? then {data.buf} else {}
      ensures Valid()
      ensures old(data).NoSlice? ==> Slices() == old(Slices()) && respSeqId == old(respSeqId)
      ensures old(data).Slice? ==>
        && respSeqId == newSeq
        && Slices() == Shift(old(Slices()), StartOf(proxyRequest, service))
        && HeaderWritten(old(data.buf[..]), data.buf[..], old(data.off), old(data.len),
                         StartOf(proxyRequest, service), name, typeId, newSeq)
    {
      if data.Slice? {
        respSeqId := newSeq;
        var start := 0;
        if proxyRequest {
          start := |service|;
        }
        if start > 0 {
          start := start + 1;
        }
        WriteHeader(data, start, name, typeId, newSeq);
        if start > 0 {
          dataOrig := data;
        }
        data := Slice(data.buf, data.off + start, data.len - start, data.cap - start);
      }
    }

    method RestoreSeqId()
      requires Valid()
      modifies if respData.Slice? then {respData.buf} else {}
      ensures respData.Slice? ==>
        && Content(respData) ==
           Restored(old(Content(respData)), old(respData.buf[respData.off + respData.len..]), name, respTypeId, seqId)
        && respData.buf[..respData.off] == old(respData.buf[..respData.off])
    {
      if respData.Slice? {
        ghost var mem, off, len := respData.buf[..], respData.off, respData.len;
        WriteMessageBegin(respData.buf, respData.off, name, respTypeId, seqId);
        ChunksShift(mem, off, 0, HeaderChunks(name, respTypeId, seqId));
        ChunksKeepPrefix(mem, off, HeaderChunks(name, respTypeId, seqId));
        assert mem[off..] == mem[off..off + len] + mem[off + len..];
        assert respData.buf[off..off + len] == respData.buf[..][off..][..len];
        assert respData.buf[..off] == respData.buf[..][..off];
      }
    }

    method Recycle(pool: BufferPool)
      requires Valid() && pool.Valid()
      modifies this`data, this`dataOrig, this`respData, pool
      ensures Valid() && pool.Valid()
      ensures (pool.Contents(), Slices()) == Memory.Recycle(old(pool.Contents()), old(Slices()))
    {
      var mine: HeapSlice := NoSlice;
      if dataOrig.Slice? {
        var _ := pool.Return(dataOrig);
        mine := dataOrig;
        dataOrig, data := NoSlice, NoSlice;
      } else if data.Slice? {
        mine := data;
        var _ := pool.Return(data);
        data := NoSlice;
      }
      if respData.Slice? {
        if !SamePointer(mine, respData) {
          var _ := pool.Return(respData);
        }
        respData := NoSlice;
      }
    }
  }

  /** Writing at `off + pos` of a buffer is writing at `pos` of what follows `off`. */
  lemma {:induction false} ChunksShift(mem: Bytes, off: nat, pos: nat, chunks: seq<Bytes>)
    requires off <= |mem|
    ensures WriteChunks(mem, off + pos, chunks)[off..] == WriteChunks(mem[off..], pos, chunks)
    decreases |chunks|
  {
    if chunks != [] && off + pos + |chunks[0]| <= |mem| {
      ChunksShift(OverwriteAt(mem, off + pos, chunks[0]), off, pos + |chunks[0]|, chunks[1..]);
      assert OverwriteAt(mem, off + pos, chunks[0])[off..] == OverwriteAt(mem[off..], pos, chunks[0]);
    }
  }
}
