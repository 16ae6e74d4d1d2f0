/** The packet record: a 10-byte head (id, type, body length) and a body. */
module Packets {
  import opened Binary

  /** The four fields of a packet, as a value. */
  datatype PacketValue = PacketValue(id: U32, typ: U16, length: U32, data: seq<Byte>)

  /** The size of the head every frame carries: id (4 bytes), type (2) and body length (4). */
  const HEADER_SIZE: nat := 10

  /** What GetBodyLen leaves in a packet: a zero length is replaced by the body size,
      converted to uint32 (so truncated modulo 2^32); a nonzero length is kept unchecked. */
  function LazyLength(v: PacketValue): (r: PacketValue)
    ensures r == v.(length := r.length)
    ensures v.length != 0 ==> r.length == v.length
    ensures v.length == 0 && |v.data| < 0x1_0000_0000 ==> r.length == |v.data|
    ensures v.length == 0 ==> r.length == |v.data| % 0x1_0000_0000
  {
    if v.length == 0 then v.(length := |v.data| % 0x1_0000_0000) else v
  }

  /** A second GetBodyLen changes nothing more and returns the same length. */
  lemma LazyLengthIdempotent(v: PacketValue)
    ensures LazyLength(LazyLength(v)) == LazyLength(v)
  {
  }

  /** A packet object, updated in place by its setters and by GetBodyLen. */
  class Packet {
    var id: U32
    var typ: U16
    var length: U32
    var data: seq<Byte>

    /** The zero packet `&packet.Packet{}`. */
    constructor ()
      ensures Value() == PacketValue(0, 0, 0, [])
    {
      id, typ, length, data := 0, 0, 0, [];
    }

    function Value(): PacketValue
      reads this
    {
      PacketValue(id, typ, length, data)
    }

    function GetType(): (u: U16)
      reads this
      ensures u == Value().typ
    {
      typ
    }

    function GetID(): (v: U32)
      reads this
      ensures v == Value().id
    {
      id
    }

    function GetData(): (bytes: seq<Byte>)
      reads this
      ensures bytes == Value().data
    {
      data
    }

    method SetType(u: U16)
      modifies this
      ensures GetType() == u
      ensures Value() == old(Value()).(typ := u)
    {
      typ := u;
    }

    method SetID(v: U32)
      modifies this
      ensures GetID() == v
      ensures Value() == old(Value()).(id := v)
    {
      id := v;
    }

    method SetData(bytes: seq<Byte>)
      modifies this
      ensures GetData() == bytes
      ensures Value() == old(Value()).(data := bytes)
    {
      data := bytes;
    }

    /** The declared head length: 9, whatever the packet holds, one short of the head. */
    function GetHeadLen(): (n: U32)
      ensures n + 1 == HEADER_SIZE
    {
      9
    }

    /** The body length, computed from the body and stored when the length field is 0. */
    method GetBodyLen() returns (n: U32)
      modifies this`length
      ensures Value() == LazyLength(old(Value()))
      ensures n == length
    {
      if length == 0 {
        length := |data| % 0x1_0000_0000;
      }
      n := length;
    }
  }
}
