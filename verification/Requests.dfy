/** Rewriting message headers in place.  `ReplaceSeqId` writes a shorter header at an offset of
    the buffer it was read from and `RestoreSeqId` writes one over the reply; both are right
    only when the lengths cancel exactly. */
module Requests {

  import opened ThriftMessage

  // ------------------------------------------------------ writing over a buffer

  function OverwriteAt(mem: Bytes, pos: nat, chunk: Bytes): (r: Bytes)
    requires pos + |chunk| <= |mem|
    ensures |r| == |mem|
  {
    mem[..pos] + chunk + mem[pos + |chunk|..]
  }

  /** `bytes.Buffer` on memory it does not own: chunks go in place while they fit the capacity;
      the first that does not moves the buffer elsewhere and the memory is left as it is. */
  function WriteChunks(mem: Bytes, pos: nat, chunks: seq<Bytes>): (r: Bytes)
    ensures |r| == |mem|
    decreases |chunks|
  {
    if chunks == [] || pos + |chunks[0]| > |mem| then mem
    else WriteChunks(OverwriteAt(mem, pos, chunks[0]), pos + |chunks[0]|, chunks[1..])
  }

  function Join(chunks: seq<Bytes>): Bytes {
    if chunks == [] then [] else chunks[0] + Join(chunks[1..])
  }

  /** Chunks that fit together are written as one. */
  lemma {:induction false} ChunksInPlace(mem: Bytes, pos: nat, chunks: seq<Bytes>)
    requires pos + |Join(chunks)| <= |mem|
    ensures WriteChunks(mem, pos, chunks) == OverwriteAt(mem, pos, Join(chunks))
    decreases |chunks|
  {
    if chunks == [] {
      assert OverwriteAt(mem, pos, []) == mem;
    } else {
      var a, b := chunks[0], Join(chunks[1..]);
      ChunksInPlace(OverwriteAt(mem, pos, a), pos + |a|, chunks[1..]);
      OverwriteTwice(mem, pos, a, b);
    }
  }

  lemma OverwriteTwice(mem: Bytes, pos: nat, a: Bytes, b: Bytes)
    requires pos + |a| + |b| <= |mem|
    ensures OverwriteAt(OverwriteAt(mem, pos, a), pos + |a|, b) == OverwriteAt(mem, pos, a + b)
  {
    var m := OverwriteAt(mem, pos, a);
    assert m[..pos + |a|] == mem[..pos] + a;
    assert m[pos + |a| + |b|..] == mem[pos + |a| + |b|..];
  }

  /** A header that fits is written whole, and nothing else changes. */
  lemma HeaderInPlace(mem: Bytes, pos: nat, name: Name, typeId: byte, seqId: int32)
    requires pos + FIXED_HEADER_LEN + |name| <= |mem|
    ensures WriteChunks(mem, pos, HeaderChunks(name, typeId, seqId)) ==
            OverwriteAt(mem, pos, Header(name, typeId, seqId))
  {
    var c := HeaderChunks(name, typeId, seqId);
    assert c[1..] == [c[1], c[2], c[3]] && c[1..][1..] == [c[2], c[3]] && c[1..][1..][1..] == [c[3]];
    assert Join([c[3]]) == c[3];
    assert Join([c[2], c[3]]) == c[2] + c[3];
    assert Join([c[1], c[2], c[3]]) == c[1] + (c[2] + c[3]);
    assert Join(c) == c[0] + (c[1] + (c[2] + c[3])) == Header(name, typeId, seqId);
    ChunksInPlace(mem, pos, c);
  }

  /** Even a header too long for the memory leaves its first eight bytes there. */
  lemma HeaderStart(mem: Bytes, name: Name, typeId: byte, seqId: int32)
    requires |mem| >= FIXED_HEADER_LEN
    ensures WriteChunks(mem, 0, HeaderChunks(name, typeId, seqId))[..8] == [0x80, 0x01, 0, typeId] + EncodeI32(|name|)
  {
    var c := HeaderChunks(name, typeId, seqId);
    var m1 := OverwriteAt(mem, 0, c[0]);
    var m2 := OverwriteAt(m1, 4, c[1]);
    assert c[1..] == [c[1], c[2], c[3]] && c[1..][1..] == [c[2], c[3]];
    assert WriteChunks(mem, 0, c) == WriteChunks(m1, 4, [c[1], c[2], c[3]]) == WriteChunks(m2, 8, [c[2], c[3]]);
    ChunksKeepPrefix(m2, 8, [c[2], c[3]]);
    assert m2[..8] == c[0] + c[1];
  }

  lemma {:induction false} ChunksKeepPrefix(mem: Bytes, pos: nat, chunks: seq<Bytes>)
    requires pos <= |mem|
    ensures WriteChunks(mem, pos, chunks)[..pos] == mem[..pos]
    decreases |chunks|
  {
    if chunks != [] && pos + |chunks[0]| <= |mem| {
      var next := OverwriteAt(mem, pos, chunks[0]);
      ChunksKeepPrefix(next, pos + |chunks[0]|, chunks[1..]);
      assert WriteChunks(mem, pos, chunks)[..pos] == next[..pos + |chunks[0]|][..pos];
    }
  }

  // -------------------------------------------------------- replacing the id

  /** Where the new header starts: past `service:` if the frame carries one. */
  function StartOf(proxyRequest: bool, service: Name): nat {
    if proxyRequest && |service| > 0 then |service| + 1 else 0
  }

  /** The frame `ReplaceSeqId` leaves in `Request.Data`, for a readable frame. */
  function Replaced(frame: Bytes, proxyRequest: bool, newSeq: int32): (r: Bytes)
    requires Decode(frame).Some?
  {
    var m := Decode(frame).value;
    var start := StartOf(proxyRequest, ServiceOf(m.name));
    HeaderEndsMeet(m.name, proxyRequest);
    OverwriteAt(frame, start, Header(MethodOf(m.name), m.typeId, newSeq))[start..]
  }

  /** Names the rewrite can cope with: on the proxy, all but an empty service; on the LB side,
      where the frame should carry no service, those without a separator. */
  predicate Rewritable(name: Name, proxyRequest: bool) {
    if proxyRequest then name == [] || name[0] != MULTIPLEXED_SEPARATOR
    else MULTIPLEXED_SEPARATOR !in name
  }

  /** The new header ends where the old one ended exactly for rewritable names. */
  lemma HeaderEndsMeet(name: Name, proxyRequest: bool)
    ensures var end := StartOf(proxyRequest, ServiceOf(name)) + |MethodOf(name)|;
      end <= |name| && (end == |name| <==> Rewritable(name, proxyRequest))
  {
    assert name[..|name|] == name;
  }

  /** A frame that begins with a header is that message, the rest being its body. */
  lemma HeaderThenRest(frame: Bytes, start: nat, name: Name, typeId: byte, seqId: int32)
    requires start + FIXED_HEADER_LEN + |name| <= |frame|
    ensures var rest := frame[start + FIXED_HEADER_LEN + |name|..];
      var r := OverwriteAt(frame, start, Header(name, typeId, seqId))[start..];
      r == Encode(Message(name, typeId, seqId, rest)) && Decode(r) == Some(Message(name, typeId, seqId, rest))
  {
    var rest := frame[start + FIXED_HEADER_LEN + |name|..];
    DecodeEncode(Message(name, typeId, seqId, rest));
    assert OverwriteAt(frame, start, Header(name, typeId, seqId))[start..] == Header(name, typeId, seqId) + rest;
  }

  /** The rewritten frame always reads back as (method, same type, new id); the body is all
      there, and nothing but the body, exactly for rewritable names. */
  lemma ReplaceCorrectIff(frame: Bytes, proxyRequest: bool, newSeq: int32)
    requires Decode(frame).Some?
    ensures var m := Decode(frame).value;
      var r := Replaced(frame, proxyRequest, newSeq);
      && Decode(r).Some? && Decode(r).value.(body := m.body) == Message(MethodOf(m.name), m.typeId, newSeq, m.body)
      && (Decode(r).value.body == m.body <==> Rewritable(m.name, proxyRequest))
      && (Rewritable(m.name, proxyRequest) ==> r == Encode(Message(MethodOf(m.name), m.typeId, newSeq, m.body)))
  {
    var m := Decode(frame).value;
    var rpc := MethodOf(m.name);
    var start := StartOf(proxyRequest, ServiceOf(m.name));
    HeaderEndsMeet(m.name, proxyRequest);
    HeaderThenRest(frame, start, rpc, m.typeId, newSeq);
    BodyOf(frame);
    assert |frame[start + FIXED_HEADER_LEN + |rpc|..]| == |frame| - start - FIXED_HEADER_LEN - |rpc|;
  }

  lemma BodyOf(frame: Bytes)
    requires Decode(frame).Some?
    ensures var m := Decode(frame).value;
      m.body == frame[FIXED_HEADER_LEN + |m.name|..] && |m.body| == |frame| - FIXED_HEADER_LEN - |m.name|
  {
  }

  // ------------------------------------------------- what a request keeps

  /** `DecodeRequest`: what a request keeps of its frame.  An unreadable header leaves zero values. */
  datatype Fields = Fields(service: Name, name: Name, typeId: byte, seqId: int32)

  function DecodeFields(frame: Bytes): Fields {
    match Decode(frame)
    case Some(m) => Fields(ServiceOf(m.name), MethodOf(m.name), m.typeId, m.seqId)
    case None => Fields([], [], 0, 0)
  }

  /** The header a request writes back fits the frame its fields were read from. */
  lemma FieldsRewriteFrame(frame: Bytes, proxyRequest: bool, newSeq: int32)
    requires Decode(frame).Some?
    ensures var f := DecodeFields(frame);
      var start := StartOf(proxyRequest, f.service);
      && start + FIXED_HEADER_LEN + |f.name| <= |frame|
      && OverwriteAt(frame, start, Header(f.name, f.typeId, newSeq))[start..] == Replaced(frame, proxyRequest, newSeq)
  {
    HeaderEndsMeet(Decode(frame).value.name, proxyRequest);
  }

  /** What `ReplaceSeqId` leaves of any frame: an unreadable one gets an empty name, in a buffer
      that always has room for it. */
  function Rewritten(frame: Bytes, proxyRequest: bool, newSeq: int32): Bytes {
    if Decode(frame).Some? then Replaced(frame, proxyRequest, newSeq)
    else (Header([], 0, newSeq) + if |frame| < FIXED_HEADER_LEN then [] else frame[FIXED_HEADER_LEN..])[..|frame|]
  }

  /** A call of `service:method`, or of a method alone, is known by these, its type and its id. */
  lemma FieldsOf(service: Name, rpc: Name, typeId: byte, seqId: int32, body: Bytes)
    requires 58 !in service && |service| + 1 + |rpc| < 0x8000_0000
    ensures DecodeFields(Encode(Message(service + [58] + rpc, typeId, seqId, body))) ==
            Fields(service, rpc, typeId, seqId)
    ensures 58 !in rpc ==> DecodeFields(Encode(Message(rpc, typeId, seqId, body))) == Fields([], rpc, typeId, seqId)
  {
    DecodeEncode(Message(service + [58] + rpc, typeId, seqId, body));
    DecodeEncode(Message(rpc, typeId, seqId, body));
    SplitJoin(service, rpc);
    if 58 !in rpc {
      NoSeparator(rpc);
    }
  }

  /** A frame without a readable header keeps its length and all but the first twelve bytes. */
  lemma UnreadableKeepsRest(frame: Bytes, proxyRequest: bool, newSeq: int32)
    requires Decode(frame).None?
    ensures var r := Rewritten(frame, proxyRequest, newSeq);
      |r| == |frame| && (|frame| >= 12 ==> r[12..] == frame[12..])
  {
  }

  /** Every frame long enough for a header goes out under the new id. */
  lemma RewrittenBearsId(frame: Bytes, proxyRequest: bool, newSeq: int32)
    ensures var h := DecodeTypeIdSeqId(Rewritten(frame, proxyRequest, newSeq));
      && (h.Some? <==> |frame| >= FIXED_HEADER_LEN)
      && (h.Some? ==> h.value == (DecodeFields(frame).typeId, newSeq))
  {
    if Decode(frame).Some? {
      ReplaceCorrectIff(frame, proxyRequest, newSeq);
    } else if |frame| >= FIXED_HEADER_LEN {
      DecodeEncode(Message([], 0, newSeq, frame[FIXED_HEADER_LEN..]));
    }
  }

  /** With an empty service the header comes out one byte short, and the last byte of the old id
      turns up in the body; so it does behind a load balancer when the name has a separator. */
  lemma ReplaceDamages()
    ensures var frame := Encode(Message([58, 109], 1, 7, []));
      && Decode(frame).Some?
      && Decode(Replaced(frame, true, 1)) == Some(Message([109], 1, 1, [7]))
      && Decode(Replaced(frame, false, 1)) == Some(Message([109], 1, 1, [7]))
  {
    var m := Message([58, 109], 1, 7, []);
    DecodeEncode(m);
    SplitJoin([], [109]);
    assert [] + [58] + [109] == m.name;
    HeaderThenRest(Encode(m), 0, [109], 1, 1);
    assert Encode(m)[13..] == [7];
  }

  // -------------------------------------------------------- restoring the id

  /** The frame `RestoreSeqId` leaves in `Response.Data`; `spare` is what follows the frame in
      its buffer, up to capacity. */
  function Restored(frame: Bytes, spare: Bytes, name: Name, typeId: byte, seqId: int32): (r: Bytes)
    ensures |r| == |frame|
  {
    WriteChunks(frame + spare, 0, HeaderChunks(name, typeId, seqId))[..|frame|]
  }

  /** The restored reply carries the client's id exactly when the header fits the frame, and is
      the backend's reply under that id exactly when the names have the same length. */
  lemma RestoreCorrectIff(frame: Bytes, spare: Bytes, name: Name, seqId: int32)
    requires Decode(frame).Some?
    ensures var m := Decode(frame).value;
      var r := Restored(frame, spare, name, m.typeId, seqId);
      && (Decode(r).Some? <==> FIXED_HEADER_LEN + |name| <= |frame|)
      && (Decode(r).Some? ==> Decode(r).value.(body := m.body) == Message(name, m.typeId, seqId, m.body))
      && (Decode(r) == Some(Message(name, m.typeId, seqId, m.body)) <==> |name| == |m.name|)
      && (|name| == |m.name| ==> r == Encode(Message(name, m.typeId, seqId, m.body)))
  {
    var m := Decode(frame).value;
    var mem := frame + spare;
    var end := FIXED_HEADER_LEN + |name|;
    var r := Restored(frame, spare, name, m.typeId, seqId);
    if end <= |frame| {
      HeaderInPlace(mem, 0, name, m.typeId, seqId);
      assert r == Header(name, m.typeId, seqId) + frame[end..];
      DecodeEncode(Message(name, m.typeId, seqId, frame[end..]));
      assert m.body == frame[FIXED_HEADER_LEN + |m.name|..];
      assert |frame[end..]| == |m.body| <==> |name| == |m.name|;
    } else {
      HeaderStart(mem, name, m.typeId, seqId);
      DecodeEncodeI32(|name|);
      assert r[..8] == WriteChunks(mem, 0, HeaderChunks(name, m.typeId, seqId))[..8];
      assert r[4..8] == r[..8][4..8] == EncodeI32(|name|);
    }
  }

  /** A reply under a longer name leaves the last byte of its own id in the body. */
  lemma RestoreDamages()
    ensures var reply := Encode(Message([97, 98], 2, 1, []));
      && Decode(reply).Some?
      && Decode(Restored(reply, [], [97], 2, 7)) == Some(Message([97], 2, 7, [1]))
  {
    var m := Message([97, 98], 2, 1, []);
    DecodeEncode(m);
    HeaderInPlace(Encode(m) + [], 0, [97], 2, 7);
    assert Restored(Encode(m), [], [97], 2, 7) == Header([97], 2, 7) + [1];
    DecodeEncode(Message([97], 2, 7, [1]));
  }

  // ------------------------------------------------------------ two-hop trip

  /** `RestoreSeqId` for a request made of `request`. */
  function RestoredFor(request: Bytes, reply: Bytes, spare: Bytes): Bytes
    requires Decode(reply).Some?
  {
    var f := DecodeFields(request);
    Restored(reply, spare, f.name, Decode(reply).value.typeId, f.seqId)
  }

  /** On the way out, client to proxy to LB, each hop rewriting what it got: the worker sees the
      method call with its type and body under the LB's id. */
  lemma TwoHopsOut(sent: Bytes, proxy: int32, lb: int32)
    requires Decode(sent).Some? && Rewritable(Decode(sent).value.name, true)
    requires Rewritable(MethodOf(Decode(sent).value.name), false)
    ensures var m := Decode(sent).value;
      var toLB := Rewritten(sent, true, proxy);
      && toLB == Encode(Message(MethodOf(m.name), m.typeId, proxy, m.body))
      && DecodeFields(toLB) == Fields([], MethodOf(m.name), m.typeId, proxy)
      && Rewritten(toLB, false, lb) == Encode(Message(MethodOf(m.name), m.typeId, lb, m.body))
  {
    var m := Decode(sent).value;
    ReplaceCorrectIff(sent, true, proxy);
    var toLB := Message(MethodOf(m.name), m.typeId, proxy, m.body);
    DecodeEncode(toLB);
    NoSeparator(toLB.name);
    ReplaceCorrectIff(Encode(toLB), false, lb);
  }

  /** There and back.  Each hop restores the reply with the name and id it read from the request
      it was sent.  For any ids, bodies and reply types, if the worker's reply bears a name as
      long as the one the worker was sent, the client gets it under the id it sent; if it echoes
      the name, only the four bytes of the id differ. */
  lemma TwoHops(sent: Bytes, proxy: int32, lb: int32, reply: Bytes, proxySpare: Bytes, lbSpare: Bytes)
    requires Decode(sent).Some? && Rewritable(Decode(sent).value.name, true)
    requires Rewritable(MethodOf(Decode(sent).value.name), false)
    requires Decode(reply).Some? && |Decode(reply).value.name| == |MethodOf(Decode(sent).value.name)|
    ensures var m, w := Decode(sent).value, Decode(reply).value;
      var toLB := Rewritten(sent, true, proxy);
      var toWorker := Rewritten(toLB, false, lb);
      var toProxy := RestoredFor(toLB, reply, lbSpare);
      && Decode(toWorker) == Some(Message(MethodOf(m.name), m.typeId, lb, m.body))
      && DecodeTypeIdSeqId(toProxy) == Some((w.typeId, proxy))
      && var toClient := RestoredFor(sent, toProxy, proxySpare);
         && toClient == Encode(Message(MethodOf(m.name), w.typeId, m.seqId, w.body))
         && (w.name == MethodOf(m.name) && reply[2] == 0 ==>
               toClient == OverwriteAt(reply, 8 + |w.name|, EncodeI32(m.seqId)))
  {
    var m, w := Decode(sent).value, Decode(reply).value;
    var rpc := MethodOf(m.name);
    TwoHopsOut(sent, proxy, lb);
    DecodeEncode(Message(rpc, m.typeId, lb, m.body));
    RestoreCorrectIff(reply, lbSpare, rpc, proxy);
    var toProxy := RestoredFor(Rewritten(sent, true, proxy), reply, lbSpare);
    assert Decode(toProxy) == Some(Message(rpc, w.typeId, proxy, w.body));
    RestoreCorrectIff(toProxy, proxySpare, rpc, m.seqId);
    if w.name == rpc && reply[2] == 0 {
      EncodeDecode(reply);
      assert reply[2 := 0] == reply;
      ChangeId(w, m.seqId);
    }
  }

  lemma ChangeId(m: Message, seqId: int32)
    ensures OverwriteAt(Encode(m), 8 + |m.name|, EncodeI32(seqId)) == Encode(m.(seqId := seqId))
  {
    var front := [0x80, 0x01, 0, m.typeId] + EncodeI32(|m.name|) + m.name;
    assert Encode(m) == front + EncodeI32(m.seqId) + m.body;
    assert Encode(m)[..8 + |m.name|] == front;
    assert Encode(m)[12 + |m.name|..] == m.body;
  }

  lemma NoSeparator(name: Name)
    requires MULTIPLEXED_SEPARATOR !in name
    ensures ServiceOf(name) == [] && MethodOf(name) == name
  {
  }
}
