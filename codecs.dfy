/** The wire codec: id (uint32), type (uint16), length (uint32), all big-endian, then the body. */
module Codecs {
  import opened Status
  import opened Binary
  import opened Packets
  import opened Connections

  const TYPE_PING: U16 := 1234
  const TYPE_SYNC: U16 := 1235
  const TYPE_BUSINESS: U16 := 1236

  /** The bytes of a frame with the given head fields and body. */
  function Frame(id: U32, typ: U16, length: U32, data: seq<Byte>): seq<Byte> {
    BE32(id) + BE16(typ) + BE32(length) + data
  }

  /** What Encode writes for a packet: its fields, with the length GetBodyLen yields. */
  function EncodeSpec(v: PacketValue): seq<Byte> {
    var w := LazyLength(v);
    Frame(w.id, w.typ, w.length, w.data)
  }

  /** The outcome of decoding from a stream and how many bytes it consumed. */
  datatype Parse = Parse(result: Result<PacketValue>, consumed: nat)

  /** Decode on a stream holding `input`: each field is read whole or the read fails;
      a zero id stops after 4 bytes, an undefined type after 6. */
  function ParseFrame(input: seq<Byte>): (p: Parse)
    ensures p.consumed <= |input|
    ensures p.result.Success? ==>
              var v := p.result.value;
              && v.id != 0 && TYPE_PING <= v.typ <= TYPE_BUSINESS
              && |v.data| == v.length
              && p.consumed == HEADER_SIZE + v.length
  {
    if |input| < 4 then Parse(Failure(ReadFailed), 0)
    else
      var id := ReadBE32(input[..4]);
      if id == 0 then Parse(Failure(IdZero), 4)
      else if |input| < 6 then Parse(Failure(ReadFailed), 4)
      else
        var typ := ReadBE16(input[4..6]);
        if typ < TYPE_PING || typ > TYPE_BUSINESS then Parse(Failure(TypeNotDefined(typ)), 6)
        else if |input| < 10 then Parse(Failure(ReadFailed), 6)
        else
          var length := ReadBE32(input[6..10]);
          if |input| < 10 + length then Parse(Failure(ReadFailed), 10)
          else Parse(Success(PacketValue(id, typ, length, input[10..10 + length])), 10 + length)
  }

  /** The head of a frame splits back into its three fields. */
  lemma FrameFields(id: U32, typ: U16, length: U32, data: seq<Byte>, rest: seq<Byte>)
    ensures var s := Frame(id, typ, length, data) + rest;
      && |s| == HEADER_SIZE + |data| + |rest|
      && ReadBE32(s[..4]) == id && ReadBE16(s[4..6]) == typ && ReadBE32(s[6..10]) == length
      && s[10..10 + |data|] == data
  {
    var s := Frame(id, typ, length, data) + rest;
    ReadBE32OfBE32(id);
    ReadBE16OfBE16(typ);
    ReadBE32OfBE32(length);
    assert s[..4] == BE32(id);
    assert s[4..6] == BE16(typ);
    assert s[6..10] == BE32(length);
  }

  /** Round trip: a well-formed frame decodes to its fields and consumes exactly its bytes,
      whatever follows it on the stream. */
  lemma {:induction false} DecodeOfFrame(id: U32, typ: U16, data: seq<Byte>, rest: seq<Byte>)
    requires id != 0 && TYPE_PING <= typ <= TYPE_BUSINESS && |data| < 0x1_0000_0000
    ensures ParseFrame(Frame(id, typ, |data|, data) + rest)
            == Parse(Success(PacketValue(id, typ, |data|, data)), HEADER_SIZE + |data|)
  {
    FrameFields(id, typ, |data|, data, rest);
  }

  /** The converse: what Decode accepts is exactly a frame with those fields. */
  lemma {:induction false} FrameOfDecode(input: seq<Byte>)
    requires ParseFrame(input).result.Success?
    ensures var p := ParseFrame(input); var v := p.result.value;
      input[..p.consumed] == Frame(v.id, v.typ, v.length, v.data)
  {
    var p := ParseFrame(input);
    var v := p.result.value;
    BE32OfReadBE32(input[..4]);
    BE16OfReadBE16(input[4..6]);
    BE32OfReadBE32(input[6..10]);
    assert input[..p.consumed] == input[..4] + input[4..6] + input[6..10] + input[10..p.consumed];
  }

  /** Encoding a packet whose length is 0 or its body size and decoding the bytes
      gives back id, type and body, with the length set to the body size. */
  lemma {:induction false} EncodeDecodeRoundTrip(v: PacketValue)
    requires v.id != 0 && TYPE_PING <= v.typ <= TYPE_BUSINESS
    requires v.length == 0 || v.length == |v.data|
    requires |v.data| < 0x1_0000_0000
    ensures ParseFrame(EncodeSpec(v)) == Parse(Success(v.(length := |v.data|)), HEADER_SIZE + |v.data|)
  {
    assert LazyLength(v) == v.(length := |v.data|);
    var s := Frame(v.id, v.typ, |v.data|, v.data);
    assert s == EncodeSpec(v);
    DecodeOfFrame(v.id, v.typ, v.data, []);
    assert s + [] == s;
  }

  /** An encoded packet is 10 head bytes plus its body; with length 0 the length field
      carries the body size. */
  lemma EncodeSpecLayout(v: PacketValue)
    ensures |EncodeSpec(v)| == HEADER_SIZE + |v.data|
    ensures EncodeSpec(v)[..4] == BE32(v.id) && EncodeSpec(v)[4..6] == BE16(v.typ)
    ensures v.length == 0 && |v.data| < 0x1_0000_0000 ==> EncodeSpec(v)[6..10] == BE32(|v.data|)
    ensures EncodeSpec(v)[HEADER_SIZE..] == v.data
  {
  }

  /** A zero id is rejected after its 4 bytes, before the type is read, whatever follows it
      (even nothing). */
  lemma ZeroIdRejected(input: seq<Byte>)
    requires |input| >= 4 && ReadBE32(input[..4]) == 0
    ensures ParseFrame(input) == Parse(Failure(IdZero), 4)
  {
  }

  /** A type outside [TYPE_PING, TYPE_BUSINESS] after a nonzero id is rejected after 6 bytes,
      before the length is read, whatever follows it. */
  lemma UndefinedTypeRejected(input: seq<Byte>)
    requires |input| >= 6 && ReadBE32(input[..4]) != 0
    requires ReadBE16(input[4..6]) < TYPE_PING || ReadBE16(input[4..6]) > TYPE_BUSINESS
    ensures ParseFrame(input) == Parse(Failure(TypeNotDefined(ReadBE16(input[4..6]))), 6)
  {
  }

  /** A nonzero id, a defined type and a body as long as announced: the frame's fields are decoded
      and exactly head and body are consumed. */
  lemma WholeFrameAccepted(input: seq<Byte>)
    requires |input| >= HEADER_SIZE && ReadBE32(input[..4]) != 0
    requires TYPE_PING <= ReadBE16(input[4..6]) <= TYPE_BUSINESS
    requires |input| >= HEADER_SIZE + ReadBE32(input[6..10])
    ensures var length := ReadBE32(input[6..10]);
      ParseFrame(input)
      == Parse(Success(PacketValue(ReadBE32(input[..4]), ReadBE16(input[4..6]), length, input[10..10 + length])), 10 + length)
  {
  }

  /** A body shorter than the announced length, at the end of the stream, is a read error. */
  lemma {:induction false} TruncatedBodyRejected(id: U32, typ: U16, length: U32, data: seq<Byte>)
    requires id != 0 && TYPE_PING <= typ <= TYPE_BUSINESS && |data| < length
    ensures ParseFrame(Frame(id, typ, length, data)) == Parse(Failure(ReadFailed), HEADER_SIZE)
  {
    FrameFields(id, typ, length, data, []);
  }

  /** The bytes of "ping" and "pong". */
  const PING: seq<Byte> := [0x70, 0x69, 0x6E, 0x67]
  const PONG: seq<Byte> := [0x70, 0x6F, 0x6E, 0x67]

  /** ID 1000, type 1234, body "ping" encodes to 00 00 03 E8 04 D2 00 00 00 04 70 69 6E 67. */
  lemma PingFrameBytes()
    ensures EncodeSpec(PacketValue(1000, TYPE_PING, 0, PING))
         == [0x00, 0x00, 0x03, 0xE8, 0x04, 0xD2, 0x00, 0x00, 0x00, 0x04, 0x70, 0x69, 0x6E, 0x67]
    ensures EncodeSpec(PacketValue(1000, TYPE_PING, 4, PING)) == EncodeSpec(PacketValue(1000, TYPE_PING, 0, PING))
  {
  }

  /** GetHeadLen answers 9, one less than the 10 head bytes a frame carries. */
  lemma HeadLenShortOfHeader(p: Packet, v: PacketValue)
    ensures p.GetHeadLen() == 9
    ensures |EncodeSpec(v)| - |v.data| == HEADER_SIZE == p.GetHeadLen() + 1
  {
  }

  /** The only codec of the framework, zcodec.Default(). */
  datatype Codec = DefaultCodec {

    /** Writes id, type, GetBodyLen() and the body, in that order; the packet's length
        field is filled in as GetBodyLen does. */
    method Encode(p: Packet) returns (buf: seq<Byte>)
      modifies p`length
      ensures p.Value() == LazyLength(old(p.Value()))
      ensures buf == EncodeSpec(old(p.Value()))
    {
      buf := [];
      var id := p.GetID();
      buf := buf + BE32(id);
      var type0 := p.GetType();
      buf := buf + BE16(type0);
      var bodyLen := p.GetBodyLen();
      buf := buf + BE32(bodyLen);
      buf := buf + p.GetData();
    }

    /** Reads id, type, length and body from the connection into a fresh packet, returning at the first error. */
    method Decode(conn: Conn) returns (pkt: Packet, err: Outcome)
      modifies conn`input
      ensures fresh(pkt)
      ensures var p := ParseFrame(old(conn.input));
        && conn.input == old(conn.input)[p.consumed..]
        && (p.result.Failure? ==> err == Fail(p.result.error))
        && (p.result.Success? ==> err == Ok && pkt.Value() == p.result.value)
    {
      ghost var input := conn.input;
      pkt := new Packet();
      var idBuf, e := conn.Read(4);
      if e.Fail? {
        assert ParseFrame(input) == Parse(Failure(ReadFailed), 0);
        return pkt, e;
      }
      pkt.id := ReadBE32(idBuf);
      if pkt.id == 0 {
        ZeroIdRejected(input);
        return pkt, Fail(IdZero);
      }
      var typeBuf;
      typeBuf, e := conn.Read(2);
      if e.Fail? {
        assert ParseFrame(input) == Parse(Failure(ReadFailed), 4);
        return pkt, e;
      }
      assert typeBuf == input[4..6];
      pkt.typ := ReadBE16(typeBuf);
      if pkt.typ < TYPE_PING || pkt.typ > TYPE_BUSINESS {
        UndefinedTypeRejected(input);
        return pkt, Fail(TypeNotDefined(pkt.typ));
      }
      var lengthBuf;
      lengthBuf, e := conn.Read(4);
      if e.Fail? {
        assert ParseFrame(input) == Parse(Failure(ReadFailed), 6);
        return pkt, e;
      }
      assert lengthBuf == input[6..10];
      pkt.length := ReadBE32(lengthBuf);
      var dataBuf;
      dataBuf, e := conn.Read(pkt.length);
      if e.Fail? {
        assert ParseFrame(input) == Parse(Failure(ReadFailed), 10);
        return pkt, e;
      }
      assert dataBuf == input[10..10 + pkt.length];
      pkt.data := dataBuf;
      WholeFrameAccepted(input);
      err := Ok;
    }
  }

  function Default(): (c: Codec)
    ensures c == DefaultCodec
  {
    DefaultCodec
  }
}
