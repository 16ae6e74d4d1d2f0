/** Handlers: the routing table from packet id to child handler, the child handlers,
    and the route handler that decodes one packet and dispatches it. */
module Handlers {
  import opened Status
  import opened Binary
  import opened Packets
  import opened Connections
  import opened Codecs

  /** The concrete handler types: the route handler and the three child handlers. */
  datatype Kind = Router | Ping | Sync | Rpc

  /** The ping handler's reply to a packet with this id: type and length left 0, body "pong". */
  function PongPacket(id: U32): PacketValue {
    PacketValue(id, 0, 0, PONG)
  }

  /** What a child handler's HandleMsg returns and writes. */
  datatype Reply = Reply(outcome: Outcome, written: seq<Byte>)

  /** HandleMsg of a child handler of this kind, on a connection whose writes fail or not.
      The ping handler writes one encoded reply; the sync and rpc handlers succeed silently. */
  function Respond(kind: Kind, writeFails: bool, id: U32): (r: Reply)
    ensures r.outcome.Ok? <==> !(kind == Ping && writeFails)
    ensures r.outcome.Fail? ==> r.outcome == Fail(WriteFailed)
    ensures r.written != [] <==> kind == Ping && !writeFails
    ensures r.written != [] ==> r.written == EncodeSpec(PongPacket(id))
  {
    match kind
    case Ping => if writeFails then Reply(Fail(WriteFailed), []) else Reply(Ok, EncodeSpec(PongPacket(id)))
    case _ => Reply(Ok, [])
  }

  /** The encoded pong: the inbound id, type 00 00, length 4, then "pong". */
  lemma PongBytes(id: U32)
    ensures EncodeSpec(PongPacket(id)) == BE32(id) + [0x00, 0x00, 0x00, 0x00, 0x00, 0x04] + PONG
    ensures EncodeSpec(PongPacket(1000))
         == [0x00, 0x00, 0x03, 0xE8, 0x00, 0x00, 0x00, 0x00, 0x00, 0x04, 0x70, 0x6F, 0x6E, 0x67]
  {
  }

  /** The pong reply cannot be read back by Decode: its type 0 lies outside
      [TYPE_PING, TYPE_BUSINESS] (and an id of 0 is rejected even earlier). */
  lemma {:induction false} PongNotDecodable(id: U32, rest: seq<Byte>)
    ensures ParseFrame(EncodeSpec(PongPacket(id)) + rest)
         == if id == 0 then Parse(Failure(IdZero), 4) else Parse(Failure(TypeNotDefined(0)), 6)
  {
    assert EncodeSpec(PongPacket(id)) == Frame(id, 0, 4, PONG);
    FrameFields(id, 0, 4, PONG, rest);
  }

  /** One round of the route handler: what it returns, how many input bytes it consumed,
      what it wrote, and the routing key whose child handler it ran. */
  datatype Round = Round(outcome: Outcome, consumed: nat, written: seq<Byte>, routed: Option<U32>)

  /** HandleMsg0 on a connection that is live or not, with these input bytes, under a table
      whose keys map to handlers of these kinds. */
  function Cycle(live: bool, writeFails: bool, input: seq<Byte>, routes: map<U32, Kind>): (r: Round)
    ensures r.consumed <= |input|
    ensures r.outcome.Ok? ==> r.consumed >= HEADER_SIZE
    ensures r.outcome.Ok? ==> live && ParseFrame(input).result.Success? && r.consumed == ParseFrame(input).consumed
    ensures r.routed.Some? ==> r.routed.value in routes
  {
    if !live then Round(Fail(ConnNotAlive), 0, [], None)
    else
      var p := ParseFrame(input);
      match p.result
      case Failure(e) => Round(Fail(e), p.consumed, [], None)
      case Success(v) =>
        if v.id !in routes then Round(Fail(NoChildHandler(v.typ, v.id)), p.consumed, [], None)
        else
          var reply := Respond(routes[v.id], writeFails, v.id);
          Round(reply.outcome, p.consumed, reply.written, Some(v.id))
  }

  /** A round writes nothing unless it routed the packet to the ping handler, and then it
      writes exactly the pong for the packet's id; a dead connection is not read at all. */
  lemma CycleWrites(live: bool, writeFails: bool, input: seq<Byte>, routes: map<U32, Kind>)
    ensures var r := Cycle(live, writeFails, input, routes);
      && (!live ==> r == Round(Fail(ConnNotAlive), 0, [], None))
      && (r.written == [] || (r.routed.Some? && routes[r.routed.value] == Ping
                              && r.written == EncodeSpec(PongPacket(r.routed.value))))
  {
  }

  /** A decode error is returned as it is: no child handler runs and nothing is written. */
  lemma DecodeErrorRound(writeFails: bool, input: seq<Byte>, routes: map<U32, Kind>)
    requires ParseFrame(input).result.Failure?
    ensures Cycle(true, writeFails, input, routes)
         == Round(Fail(ParseFrame(input).result.error), ParseFrame(input).consumed, [], None)
  {
  }

  /** A decoded packet whose id is in the table goes to that child handler: the round returns
      and writes what the handler's HandleMsg does, after consuming exactly the packet. */
  lemma RoutedRound(writeFails: bool, input: seq<Byte>, routes: map<U32, Kind>)
    requires ParseFrame(input).result.Success? && ParseFrame(input).result.value.id in routes
    ensures var p := ParseFrame(input); var id := p.result.value.id;
      var reply := Respond(routes[id], writeFails, id);
      Cycle(true, writeFails, input, routes) == Round(reply.outcome, p.consumed, reply.written, Some(id))
  {
  }

  /** A packet whose id has no table entry fails the round: nothing runs and nothing is written. */
  lemma {:induction false} UnroutableRound(writeFails: bool, id: U32, typ: U16, data: seq<Byte>, rest: seq<Byte>, routes: map<U32, Kind>)
    requires id != 0 && TYPE_PING <= typ <= TYPE_BUSINESS && |data| < 0x1_0000_0000
    requires id !in routes
    ensures Cycle(true, writeFails, Frame(id, typ, |data|, data) + rest, routes)
         == Round(Fail(NoChildHandler(typ, id)), HEADER_SIZE + |data|, [], None)
  {
    DecodeOfFrame(id, typ, data, rest);
  }

  /** A handler: the shared base (codec and bound connection) of one concrete handler type. */
  class Handler {
    const kind: Kind
    var codec0: Option<Codec>
    var conn: Conn?

    constructor (kind: Kind, codec0: Option<Codec>)
      ensures this.kind == kind && this.codec0 == codec0 && conn == null
    {
      this.kind, this.codec0, conn := kind, codec0, null;
    }

    /** The copy a value-receiver method works on. */
    constructor CopyOf(h: Handler)
      ensures kind == h.kind && codec0 == h.codec0 && conn == h.conn
    {
      kind, codec0, conn := h.kind, h.codec0, h.conn;
    }

    method SetConn(c: Conn?)
      modifies this`conn
      ensures conn == c
    {
      conn := c;
    }

    method BindConn(c: Conn?)
      modifies this`conn
      ensures conn == c
    {
      conn := c;
    }

    method SetCodec(c: Option<Codec>)
      modifies this`codec0
      ensures codec0 == c
    {
      codec0 := c;
    }

    /** Encodes pkt (installing the default codec when none is set) and writes the bytes
        to the bound connection, returning the write's result. */
    method Write(pkt: Packet) returns (err: Outcome)
      requires conn != null
      modifies this`codec0, pkt`length, conn`output
      ensures codec0 == if old(codec0).None? then Some(Default()) else old(codec0)
      ensures pkt.Value() == LazyLength(old(pkt.Value()))
      ensures conn.writeFails ==> err == Fail(WriteFailed) && conn.output == old(conn.output)
      ensures !conn.writeFails ==> err == Ok && conn.output == old(conn.output) + EncodeSpec(old(pkt.Value()))
    {
      if codec0.None? {
        codec0 := Some(Default());
      }
      var buf := codec0.value.Encode(pkt);
      err := conn.Write(buf);
    }

    /** A child handler's HandleMsg. The ping handler builds the pong for pkt's id and writes
        it through a copy of itself (Go value receiver), so the handler is left unchanged. */
    method HandleMsg(pkt: Packet) returns (err: Outcome)
      requires kind != Router
      requires kind == Ping ==> conn != null
      modifies conn
      ensures var r := Respond(kind, conn != null && conn.writeFails, pkt.id);
        && err == r.outcome
        && (conn != null ==> conn.State() == old(conn.State()).(output := old(conn.output) + r.written))
    {
      if kind == Ping {
        var ack := new Packet();
        ack.id := pkt.GetID();
        ack.data := PONG;
        var receiver := new Handler.CopyOf(this);
        err := receiver.Write(ack);
      } else {
        err := Ok;
      }
    }

    /** The route handler's round: check the connection is alive, decode one packet,
        bind the child handler registered for its id to the connection and run it. */
    method HandleMsg0(table: HandlerTable) returns (err: Outcome)
      requires kind == Router && codec0.Some? && table.Valid()
      modifies conn, table.children.Values
      ensures conn == old(conn) && codec0 == old(codec0)
      ensures conn == null ==> err == Fail(ConnNotAlive) && forall h :: h in table.children.Values ==> unchanged(h)
      ensures conn != null ==>
        var r := Cycle(old(conn.alive), conn.writeFails, old(conn.input), Routes(table.children));
        && err == r.outcome
        && conn.State() == old(conn.State()).(input := old(conn.input)[r.consumed..], output := old(conn.output) + r.written)
        && (r.routed.Some? ==> table.children[r.routed.value].conn == conn)
        && forall h :: h in table.children.Values ==>
             h.codec0 == old(h.codec0) &&
             (h.conn == old(h.conn) || (r.routed.Some? && h == table.children[r.routed.value]))
    {
      assert this !in table.children.Values;
      if conn == null || !conn.alive {
        return Fail(ConnNotAlive);
      }
      var pkt, e := codec0.value.Decode(conn);
      if e.Fail? {
        return e;
      }
      var id := pkt.GetID();
      if id in table.children {
        var h := table.children[id];
        h.SetConn(conn);
        err := h.HandleMsg(pkt);
        return;
      }
      err := Fail(NoChildHandler(pkt.GetType(), id));
    }
  }

  /** The kind of handler each routing key selects. */
  function Routes(children: map<U32, Handler>): map<U32, Kind> {
    map k | k in children :: children[k].kind
  }

  /** The child handler table, keyed by packet id. */
  class HandlerTable {
    var children: map<U32, Handler>

    /** Only child handlers are registered. */
    ghost predicate Valid()
      reads this
    {
      forall k :: k in children ==> children[k].kind != Router
    }

    /** The initial table: sync at 2000 (no codec), rpc at 3000 (default codec). */
    constructor ()
      ensures Valid() && children.Keys == {2000, 3000}
      ensures fresh(children[2000]) && fresh(children[3000])
      ensures children[2000].kind == Sync && children[2000].codec0 == None && children[2000].conn == null
      ensures children[3000].kind == Rpc && children[3000].codec0 == Some(Default()) && children[3000].conn == null
    {
      var sync := new Handler(Sync, None);
      var rpc := new Handler(Rpc, Some(Default()));
      children := map[2000 := sync, 3000 := rpc];
    }

    /** Maps routerId to h, replacing any earlier handler for it; other keys keep theirs. */
    method RegisterChildHandler(routerId: U32, h: Handler)
      requires Valid() && h.kind != Router
      modifies this
      ensures Valid()
      ensures children == old(children)[routerId := h]
    {
      children := children[routerId := h];
    }

    /** The table itself, every entry a child handler. */
    function AllChildHandlers(): (m: map<U32, Handler>)
      reads this
      ensures m == children
      ensures Valid() ==> forall k :: k in m ==> m[k].kind != Router
    {
      children
    }
  }

  /** Startup as in main.go: 1000 is absent from a fresh table and present once the ping
      handler is registered; the registration shows in AllChildHandlers. */
  method StartupTable() returns (before: set<U32>, after: set<U32>, table: HandlerTable)
    ensures before == {2000, 3000} && after == {1000, 2000, 3000}
    ensures table.Valid() && Routes(table.AllChildHandlers()) == map[1000 := Ping, 2000 := Sync, 3000 := Rpc]
  {
    table := new HandlerTable();
    before := table.AllChildHandlers().Keys;
    var ping := new Handler(Ping, None);
    ping.SetCodec(Some(Default()));
    table.RegisterChildHandler(1000, ping);
    after := table.AllChildHandlers().Keys;
  }

  /** RouteBuilder's builder around a fresh route handler. */
  datatype Builder = Builder(handler: Handler) {

    method Codec(c: Option<Codecs.Codec>) returns (b: Builder)
      modifies handler`codec0
      ensures b == this && handler.codec0 == c
    {
      handler.SetCodec(c);
      b := this;
    }

    method Conn(c: Connections.Conn?) returns (b: Builder)
      modifies handler`conn
      ensures b == this && handler.conn == c
    {
      handler.SetConn(c);
      b := this;
    }

    /** The handler itself, not a copy: what Codec and Conn set on it shows in the result. */
    function Build(): (h: Handler)
      ensures h == handler
    {
      handler
    }
  }

  method RouteBuilder() returns (b: Builder)
    ensures fresh(b.handler) && b.handler.kind == Router
    ensures b.handler.codec0 == None && b.handler.conn == null
  {
    var h := new Handler(Router, None);
    b := Builder(h);
  }
}
