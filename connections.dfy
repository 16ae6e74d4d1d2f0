/** Connections and the registry that numbers, stores, finds and removes them. */
module Connections {
  import opened Status
  import opened Binary

  /** The part of a connection that changes while it is served. */
  datatype ConnState = ConnState(alive: bool, closed: bool, input: seq<Byte>, output: seq<Byte>)

  /** What an accept hands over: the peer's host, the bytes it will send,
      and whether closing and writing this transport will fail. */
  datatype Socket = Socket(remoteHost: string, input: seq<Byte>, closeFails: bool, writeFails: bool)

  /** An accepted connection. The TCP socket is abstracted as the bytes still to be
      read, the bytes written so far, a closed flag and fixed outcomes for close and write. */
  class Conn {
    const id: U64
    const remoteHost: string
    const closeFails: bool
    const writeFails: bool
    var alive: bool
    var closed: bool
    var input: seq<Byte>
    var output: seq<Byte>

    /** `&mConnection{id: .., conn: .., alive: true}` */
    constructor (id: U64, s: Socket)
      ensures this.id == id && remoteHost == s.remoteHost
      ensures closeFails == s.closeFails && writeFails == s.writeFails
      ensures State() == ConnState(true, false, s.input, [])
    {
      this.id := id;
      remoteHost, closeFails, writeFails := s.remoteHost, s.closeFails, s.writeFails;
      alive, closed, input, output := true, false, s.input, [];
    }

    function State(): ConnState
      reads this
    {
      ConnState(alive, closed, input, output)
    }

    /** Fills an n-byte buffer from the stream: all n bytes, or an error that consumes nothing. */
    method Read(n: nat) returns (bytes: seq<Byte>, err: Outcome)
      modifies this`input
      ensures n <= |old(input)| ==> err == Ok && bytes == old(input)[..n] && input == old(input)[n..]
      ensures n > |old(input)| ==> err == Fail(ReadFailed) && input == old(input)
    {
      if n <= |input| {
        bytes, input := input[..n], input[n..];
        err := Ok;
      } else {
        bytes, err := [], Fail(ReadFailed);
      }
    }

    /** Sends all of `bytes`, or fails without sending. */
    method Write(bytes: seq<Byte>) returns (err: Outcome)
      modifies this`output
      ensures writeFails ==> err == Fail(WriteFailed) && output == old(output)
      ensures !writeFails ==> err == Ok && output == old(output) + bytes
    {
      if writeFails {
        err := Fail(WriteFailed);
      } else {
        output := output + bytes;
        err := Ok;
      }
    }

    /** Closes the transport, or fails and leaves it as it was. */
    method Close() returns (err: Outcome)
      modifies this`closed
      ensures closeFails ==> err == Fail(CloseFailed) && closed == old(closed)
      ensures !closeFails ==> err == Ok && closed
    {
      if closeFails {
        err := Fail(CloseFailed);
      } else {
        closed := true;
        err := Ok;
      }
    }

    method SetAlive(b: bool)
      modifies this`alive
      ensures alive == b
    {
      alive := b;
    }
  }

  /** c was live and is now dead and closed; nothing else about it changed. */
  twostate predicate TornDown(c: Conn)
    reads c
  {
    old(c.alive) && c.State() == old(c.State()).(alive := false, closed := true)
  }

  /** c was live and is now dead but not closed; nothing else about it changed. */
  twostate predicate MarkedDead(c: Conn)
    reads c
  {
    old(c.alive) && c.State() == old(c.State()).(alive := false)
  }

  /** The connection registry: an id counter and a pool from id to connection. */
  class ConnectionMgr {
    var counter: U64
    var pool: map<U64, Conn>

    /** Every connection is stored under its own id. */
    ghost predicate Valid()
      reads this
    {
      forall k :: k in pool ==> pool[k].id == k
    }

    /** DefaultConnMgr: counter 0, empty pool. */
    constructor ()
      ensures Valid() && counter == 0 && pool == map[]
    {
      counter, pool := 0, map[];
    }

    /** The effect of removing connection c, as doRemoveConn performs it: a live connection
        is marked dead and closed; a close failure returns the error and keeps the entry;
        otherwise the entry is deleted. A dead connection is deleted without closing. */
    twostate predicate Removal(c: Conn, err: Outcome)
      reads this, c
    {
      if !old(c.alive) then
        err == Ok && c.State() == old(c.State()) && pool == old(pool) - {c.id}
      else if c.closeFails then
        err == Fail(CloseFailed) && MarkedDead(c) && pool == old(pool)
      else
        err == Ok && TornDown(c) && pool == old(pool) - {c.id}
    }

    /** Increments the counter (uint64, wrapping) and returns the new value. */
    method GenConnID() returns (id: U64)
      modifies this`counter
      ensures id == (old(counter) + 1) % 0x1_0000_0000_0000_0000
      ensures counter == id
    {
      counter := (counter + 1) % 0x1_0000_0000_0000_0000;
      id := counter;
    }

    /** Stores a live connection under its id, replacing any entry with that id;
        a nil or dead connection is not added. */
    method AddConn(conn: Conn?)
      requires Valid()
      modifies this`pool
      ensures Valid()
      ensures conn != null && conn.alive ==> pool == old(pool)[conn.id := conn] && GetConnByID(conn.id) == conn
      ensures conn == null || !conn.alive ==> pool == old(pool)
    {
      if conn == null {
        return;
      }
      if conn.alive {
        pool := pool[conn.id := conn];
      }
    }

    /** The connection stored under id, or nil. */
    function GetConnByID(id: U64): (c: Conn?)
      reads this
      ensures c != null <==> id in pool
      ensures c != null ==> c == pool[id]
    {
      if id in pool then pool[id] else null
    }

    /** Every registered connection once, in the pool's iteration order. */
    method All() returns (conns: seq<Conn>)
      requires Valid()
      ensures forall i :: 0 <= i < |conns| ==> conns[i].id in pool && pool[conns[i].id] == conns[i]
      ensures forall k :: k in pool ==> pool[k] in conns
      ensures forall i, j :: 0 <= i < j < |conns| ==> conns[i] != conns[j]
    {
      conns := [];
      var rest := pool.Keys;
      while rest != {}
        invariant rest <= pool.Keys
        invariant forall i :: 0 <= i < |conns| ==> conns[i].id in pool.Keys - rest && pool[conns[i].id] == conns[i]
        invariant forall k :: k in pool.Keys - rest ==> pool[k] in conns
        invariant forall i, j :: 0 <= i < j < |conns| ==> conns[i].id != conns[j].id
        decreases rest
      {
        var k :| k in rest;
        conns := conns + [pool[k]];
        rest := rest - {k};
      }
    }

    /** The registered connections whose remote host is host; none for the empty host. */
    method GetConnBySrcHost(host: string) returns (conns: seq<Conn>)
      requires Valid()
      ensures host == "" ==> conns == []
      ensures host != "" ==> forall c :: c in conns <==> c in pool.Values && c.remoteHost == host
      ensures forall i, j :: 0 <= i < j < |conns| ==> conns[i] != conns[j]
    {
      conns := [];
      if host == "" {
        return;
      }
      var rest := pool.Keys;
      while rest != {}
        invariant rest <= pool.Keys
        invariant forall i :: 0 <= i < |conns| ==> conns[i].id in pool.Keys - rest && pool[conns[i].id] == conns[i]
        invariant forall i :: 0 <= i < |conns| ==> conns[i].remoteHost == host
        invariant forall k :: k in pool.Keys - rest && pool[k].remoteHost == host ==> pool[k] in conns
        invariant forall i, j :: 0 <= i < j < |conns| ==> conns[i].id != conns[j].id
        decreases rest
      {
        var k :| k in rest;
        if pool[k].remoteHost == host {
          conns := conns + [pool[k]];
        }
        rest := rest - {k};
      }
    }

    /** Removes the connection registered under id; an absent id is a success that changes nothing. */
    method RemoveConnByID(id: U64) returns (err: Outcome)
      requires Valid()
      modifies this`pool, if id in pool then {pool[id]} else {}
      ensures Valid()
      ensures id !in old(pool) ==> err == Ok && pool == old(pool)
      ensures id in old(pool) ==> Removal(old(pool[id]), err)
    {
      if id !in pool {
        return Ok;
      }
      err := DoRemoveConn(pool[id]);
    }

    /** doRemoveConn: mark dead, close, then delete; a close failure returns before the delete. */
    method DoRemoveConn(conn: Conn) returns (err: Outcome)
      requires Valid()
      modifies this`pool, conn
      ensures Valid()
      ensures Removal(conn, err)
    {
      if conn.alive {
        conn.SetAlive(false);
        err := conn.Close();
        if err.Fail? {
          return;
        }
      }
      pool := pool - {conn.id};
      err := Ok;
    }

    /** Removes one connection whose remote host is host (the last one the iteration meets);
        with none, succeeds and changes nothing. */
    method RemoveConnBySrcHost(host: string) returns (err: Outcome)
      requires Valid()
      modifies this`pool, pool.Values
      ensures Valid()
      ensures (forall k :: k in old(pool) ==> old(pool)[k].remoteHost != host) ==>
                err == Ok && pool == old(pool) && forall c :: c in old(pool.Values) ==> unchanged(c)
      ensures (exists k :: k in old(pool) && old(pool)[k].remoteHost == host) ==>
                exists k :: k in old(pool) && old(pool)[k].remoteHost == host && Removal(old(pool)[k], err) &&
                  forall c :: c in old(pool.Values) && c != old(pool)[k] ==> unchanged(c)
    {
      var found: Conn? := null;
      var rest := pool.Keys;
      while rest != {}
        invariant rest <= pool.Keys
        invariant found == null ==> forall k :: k in pool.Keys - rest ==> pool[k].remoteHost != host
        invariant found != null ==> found.id in pool && pool[found.id] == found && found.remoteHost == host
        decreases rest
      {
        var k :| k in rest;
        if pool[k].remoteHost == host {
          found := pool[k];
        }
        rest := rest - {k};
      }
      if found == null {
        return Ok;
      }
      err := DoRemoveConn(found);
    }
  }

  /** connect.New after the accept: a nil connection when the accept failed, otherwise a live
      connection numbered by GenConnID and added to the registry. */
  method New(mgr: ConnectionMgr, accepted: Option<Socket>) returns (c: Conn?)
    requires mgr.Valid()
    modifies mgr
    ensures mgr.Valid()
    ensures accepted.None? ==> c == null && unchanged(mgr)
    ensures accepted.Some? ==> c != null && fresh(c)
    ensures accepted.Some? ==> c.id == mgr.counter == (old(mgr.counter) + 1) % 0x1_0000_0000_0000_0000
    ensures accepted.Some? ==> c.State() == ConnState(true, false, accepted.value.input, [])
    ensures accepted.Some? ==> c.remoteHost == accepted.value.remoteHost
    ensures accepted.Some? ==> c.closeFails == accepted.value.closeFails && c.writeFails == accepted.value.writeFails
    ensures accepted.Some? ==> mgr.pool == old(mgr.pool)[c.id := c]
  {
    if accepted.None? {
      return null;
    }
    var id := mgr.GenConnID();
    c := new Conn(id, accepted.value);
    mgr.AddConn(c);
  }

  /** Removing the same id twice: the second removal never fails, and the id is gone. */
  method RemoveTwice(mgr: ConnectionMgr, id: U64) returns (first: Outcome, second: Outcome)
    requires mgr.Valid()
    modifies mgr`pool, mgr.pool.Values
    ensures mgr.Valid()
    ensures second == Ok && id !in mgr.pool
    ensures first.Fail? ==> first == Fail(CloseFailed)
  {
    first := mgr.RemoveConnByID(id);
    second := mgr.RemoveConnByID(id);
  }

  /** Ids handed out by a fresh registry start at 1 and increase. */
  method FreshRegistryIds() returns (first: U64, second: U64)
    ensures first == 1 && second == 2
  {
    var mgr := new ConnectionMgr();
    first := mgr.GenConnID();
    second := mgr.GenConnID();
  }
}
