/** Strict Thrift message headers, as the "Message" section of the Apache Thrift
    "Thrift Binary protocol encoding" specification lays them out:

      0x80 0x01 <unused> <type>   <name length, i32>   <name>   <sequence id, i32>   <body>

    Bodies stay opaque.  The proxy reads and writes nothing else of a message. */
module ThriftMessage {

  type byte = b: int | 0 <= b < 0x100
  type uint32 = x: int | 0 <= x < 0x1_0000_0000
  type int32 = x: int | -0x8000_0000 <= x < 0x8000_0000
  type Bytes = seq<byte>

  /** A name fits the signed 32-bit length the header gives it. */
  type Name = s: seq<byte> | |s| < 0x8000_0000

  datatype Option<+T> = None | Some(value: T)

  datatype Message = Message(name: Name, typeId: byte, seqId: int32, body: Bytes)

  const EXCEPTION: byte := 3
  const MESSAGE_TYPE_HEART_BEAT: byte := 20
  const MESSAGE_TYPE_STOP: byte := 21

  /** The ':' between service and method. */
  const MULTIPLEXED_SEPARATOR: byte := 58

  const FIXED_HEADER_LEN: nat := 12

  // ---------------------------------------------------------------- integers

  /** Big-endian, as `binary.BigEndian.PutUint32` writes it. */
  function EncodeU32(x: uint32): (r: Bytes)
    ensures |r| == 4
  {
    [x / 0x100_0000, x / 0x1_0000 % 0x100, x / 0x100 % 0x100, x % 0x100]
  }

  function DecodeU32(b: Bytes): (r: uint32)
    requires |b| == 4
  {
    b[0] as int * 0x100_0000 + b[1] as int * 0x1_0000 + b[2] as int * 0x100 + b[3]
  }

  lemma DecodeEncodeU32(x: uint32)
    ensures DecodeU32(EncodeU32(x)) == x
  {
    assert x / 0x1_0000 == (x / 0x100_0000) * 0x100 + x / 0x1_0000 % 0x100;
    assert x / 0x100 == (x / 0x1_0000) * 0x100 + x / 0x100 % 0x100;
    assert x == (x / 0x100) * 0x100 + x % 0x100;
  }

  lemma EncodeDecodeU32(b: Bytes)
    requires |b| == 4
    ensures EncodeU32(DecodeU32(b)) == b
  {
    var x := DecodeU32(b);
    var high := b[0] as int * 0x1_0000 + b[1] as int * 0x100 + b[2];
    assert x == high * 0x100 + b[3] && x / 0x100 == high && x % 0x100 == b[3];
    assert high / 0x100 == b[0] as int * 0x100 + b[1];
    assert x / 0x1_0000 == high / 0x100 && x / 0x100_0000 == b[0];
  }

  /** Most significant byte first: numbers are ordered as their bytes are, read from the left.  With
      the round trips above, no other encoding is. */
  lemma BigEndianOrder(x: uint32, y: uint32) returns (k: nat)
    requires x < y
    ensures k < 4 && EncodeU32(x)[..k] == EncodeU32(y)[..k] && EncodeU32(x)[k] < EncodeU32(y)[k]
  {
    if x / 0x100_0000 != y / 0x100_0000 {
      k := 0;
    } else if x / 0x1_0000 != y / 0x1_0000 {
      k := 1;
      Digit(x / 0x1_0000, y / 0x1_0000, x / 0x100_0000, y / 0x100_0000);
    } else if x / 0x100 != y / 0x100 {
      k := 2;
      Digit(x / 0x100, y / 0x100, x / 0x1_0000, y / 0x1_0000);
    } else {
      k := 3;
      Digit(x, y, x / 0x100, y / 0x100);
    }
  }

  lemma Digit(x: nat, y: nat, high: nat, high': nat)
    requires x < y && high == x / 0x100 && high' == y / 0x100 && high == high'
    ensures x % 0x100 < y % 0x100
  {
    assert x == high * 0x100 + x % 0x100 && y == high * 0x100 + y % 0x100;
  }

  /** Two's complement. */
  function EncodeI32(x: int32): (r: Bytes)
    ensures |r| == 4
  {
    EncodeU32(if x < 0 then x + 0x1_0000_0000 else x)
  }

  function DecodeI32(b: Bytes): (r: int32)
    requires |b| == 4
  {
    var u := DecodeU32(b);
    if u >= 0x8000_0000 then u - 0x1_0000_0000 else u
  }

  lemma DecodeEncodeI32(x: int32)
    ensures DecodeI32(EncodeI32(x)) == x
  {
    DecodeEncodeU32(if x < 0 then x + 0x1_0000_0000 else x);
  }

  lemma EncodeDecodeI32(b: Bytes)
    requires |b| == 4
    ensures EncodeI32(DecodeI32(b)) == b
  {
    EncodeDecodeU32(b);
  }

  // ----------------------------------------------------------------- messages

  /** The four writes of `WriteMessageBegin`, in order. */
  function HeaderChunks(name: Name, typeId: byte, seqId: int32): (r: seq<Bytes>)
  {
    [[0x80, 0x01, 0, typeId], EncodeI32(|name|), name, EncodeI32(seqId)]
  }

  function Header(name: Name, typeId: byte, seqId: int32): (r: Bytes)
    ensures |r| == FIXED_HEADER_LEN + |name|
  {
    [0x80, 0x01, 0, typeId] + EncodeI32(|name|) + name + EncodeI32(seqId)
  }

  function Encode(m: Message): (r: Bytes)
    ensures |r| == FIXED_HEADER_LEN + |m.name| + |m.body|
  {
    Header(m.name, m.typeId, m.seqId) + m.body
  }

  /** `ReadMessageBegin` on a strict header.  The third byte is not looked at. */
  function Decode(f: Bytes): (r: Option<Message>)
    ensures r.Some? ==> |f| == FIXED_HEADER_LEN + |r.value.name| + |r.value.body|
  {
    if |f| < 8 || f[0] != 0x80 || f[1] != 0x01 then None
    else
      var n := DecodeI32(f[4..8]);
      if n < 0 || FIXED_HEADER_LEN + n > |f| then None
      else Some(Message(f[8..8 + n], f[3], DecodeI32(f[8 + n..12 + n]), f[12 + n..]))
  }

  /** `DecodeThriftTypIdSeqId`. */
  function DecodeTypeIdSeqId(f: Bytes): (r: Option<(byte, int32)>)
  {
    match Decode(f)
    case None => None
    case Some(m) => Some((m.typeId, m.seqId))
  }

  lemma DecodeEncode(m: Message)
    ensures Decode(Encode(m)) == Some(m)
  {
    var f := Encode(m);
    var n := |m.name|;
    DecodeEncodeI32(n);
    DecodeEncodeI32(m.seqId);
    assert f[4..8] == EncodeI32(n);
    assert f[8..8 + n] == m.name;
    assert f[8 + n..12 + n] == EncodeI32(m.seqId);
    assert f[12 + n..] == m.body;
  }

  /** A readable frame is the encoding of what was read, up to the unused third byte. */
  lemma EncodeDecode(f: Bytes)
    requires Decode(f).Some?
    ensures f[2 := 0] == Encode(Decode(f).value)
  {
    var m := Decode(f).value;
    var n := |m.name|;
    EncodeDecodeI32(f[4..8]);
    EncodeDecodeI32(f[8 + n..12 + n]);
    assert f == f[..4] + f[4..8] + f[8..8 + n] + f[8 + n..12 + n] + f[12 + n..];
    assert f[2 := 0] == [0x80, 0x01, 0, m.typeId] + f[4..8] + m.name + f[8 + n..12 + n] + m.body;
  }

  lemma ThirdByteIgnored(f: Bytes, b: byte)
    requires |f| > 2
    ensures Decode(f[2 := b]) == Decode(f)
  {
    if |f| >= 8 {
      assert f[2 := b][4..8] == f[4..8];
      var n := DecodeI32(f[4..8]);
      if n >= 0 && FIXED_HEADER_LEN + n <= |f| {
        assert f[2 := b][8..8 + n] == f[8..8 + n] && f[2 := b][8 + n..12 + n] == f[8 + n..12 + n];
        assert f[2 := b][12 + n..] == f[12 + n..];
      }
    }
  }

  /** A call of `correct_typo_simple("HELLO")` as a client sends it: type 1, id 1007. */
  lemma StrictFrame()
    ensures var name: Name :=
        [99, 111, 114, 114, 101, 99, 116, 95, 116, 121, 112, 111, 95, 115, 105, 109, 112, 108, 101];
      var body: Bytes := [0, 5, 72, 69, 76, 76, 79, 0];
      Decode([128, 1, 0, 1] + [0, 0, 0, 19] + name + [0, 0, 3, 239] + body) == Some(Message(name, 1, 1007, body))
  {
    var name: Name := [99, 111, 114, 114, 101, 99, 116, 95, 116, 121, 112, 111, 95, 115, 105, 109, 112, 108, 101];
    var m := Message(name, 1, 1007, [0, 5, 72, 69, 76, 76, 79, 0]);
    assert EncodeI32(19) == [0, 0, 0, 19] && EncodeI32(1007) == [0, 0, 3, 239];
    assert Encode(m) == [128, 1, 0, 1] + [0, 0, 0, 19] + name + [0, 0, 3, 239] + m.body;
    DecodeEncode(m);
  }

  // -------------------------------------------------------------------- names

  /** Index of the first separator, or the length when there is none. */
  function FindSeparator(name: Bytes): (k: nat)
    ensures k <= |name|
    ensures k < |name| ==> name[k] == MULTIPLEXED_SEPARATOR
    ensures MULTIPLEXED_SEPARATOR !in name[..k]
  {
    if name == [] || name[0] == MULTIPLEXED_SEPARATOR then 0
    else
      var k := 1 + FindSeparator(name[1..]);
      assert name[..k] == [name[0]] + name[1..][..k - 1];
      k
  }

  /** What `strings.SplitN(name, ":", 2)` leaves in `Request.Service`. */
  function ServiceOf(name: Name): (s: Name)
  {
    var k := FindSeparator(name);
    if k == |name| then [] else name[..k]
  }

  /** What it leaves in `Request.Name`. */
  function MethodOf(name: Name): (m: Name)
  {
    var k := FindSeparator(name);
    if k == |name| then name else name[k + 1..]
  }

  /** Joining a separator-free service and any method is undone by the split. */
  lemma SplitJoin(service: Name, rpc: Name)
    requires 58 !in service && |service| + 1 + |rpc| < 0x8000_0000
    ensures ServiceOf(service + [58] + rpc) == service
    ensures MethodOf(service + [58] + rpc) == rpc
  {
    var name := service + [MULTIPLEXED_SEPARATOR] + rpc;
    var k := FindSeparator(name);
    assert name[|service|] == MULTIPLEXED_SEPARATOR;
    assert forall i :: 0 <= i < |service| ==> name[i] == service[i] != MULTIPLEXED_SEPARATOR;
    assert forall i :: 0 <= i < k ==> name[i] == name[..k][i] != MULTIPLEXED_SEPARATOR;
    assert k == |service|;
  }
}
