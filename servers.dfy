/** The server: its route handler and registry, the per-connection session, and shutdown. */
module Servers {
  import opened Status
  import opened Binary
  import opened Packets
  import opened Connections
  import opened Codecs
  import opened Handlers

  /** A session's rounds on one connection, repeated while they succeed: the first error,
      the bytes consumed and the bytes written over the whole session. */
  function Serve(live: bool, writeFails: bool, input: seq<Byte>, routes: map<U32, Kind>): (r: Round)
    ensures r.outcome.Fail?
    ensures r.consumed <= |input|
    decreases |input|
  {
    var c := Cycle(live, writeFails, input, routes);
    if c.outcome.Fail? then c
    else
      var next := Serve(live, writeFails, input[c.consumed..], routes);
      Round(next.outcome, c.consumed + next.consumed, c.written + next.written, next.routed)
  }

  /** One unfolding of Serve: a failed round ends the session, a successful one is followed by the rest. */
  lemma ServeStep(live: bool, writeFails: bool, input: seq<Byte>, routes: map<U32, Kind>)
    ensures var c := Cycle(live, writeFails, input, routes);
      var s := Serve(live, writeFails, input, routes);
      && (c.outcome.Fail? ==> s == c)
      && (c.outcome.Ok? ==>
            var n := Serve(live, writeFails, input[c.consumed..], routes);
            s == Round(n.outcome, c.consumed + n.consumed, c.written + n.written, n.routed))
  {
  }

  /** The rounds already run, in front of the rest of a session. */
  function Then(consumed: nat, written: seq<Byte>, rest: Round): Round {
    Round(rest.outcome, consumed + rest.consumed, written + rest.written, rest.routed)
  }

  /** Before the first round nothing has been read or written. */
  lemma ProgressAtStart(live: bool, writeFails: bool, input: seq<Byte>, routes: map<U32, Kind>)
    ensures Serve(live, writeFails, input, routes) == Then(0, [], Serve(live, writeFails, input[0..], routes))
  {
    assert input[0..] == input;
    assert [] + Serve(live, writeFails, input, routes).written == Serve(live, writeFails, input, routes).written;
  }

  /** One more round keeps a session in progress when it succeeds, and ends the session with
      its own outcome when it fails. */
  lemma ServeAdvance(live: bool, writeFails: bool, input: seq<Byte>, routes: map<U32, Kind>,
                     consumed: nat, written: seq<Byte>, round: Round, consumed': nat, written': seq<Byte>)
    requires consumed <= |input|
    requires Serve(live, writeFails, input, routes) == Then(consumed, written, Serve(live, writeFails, input[consumed..], routes))
    requires round == Cycle(live, writeFails, input[consumed..], routes)
    requires consumed' == consumed + round.consumed && written' == written + round.written
    ensures consumed' <= |input|
    ensures round.outcome.Ok? ==>
      Serve(live, writeFails, input, routes) == Then(consumed', written', Serve(live, writeFails, input[consumed'..], routes))
    ensures round.outcome.Fail? ==>
      && Serve(live, writeFails, input, routes).outcome == round.outcome
      && Serve(live, writeFails, input, routes).consumed == consumed' && Serve(live, writeFails, input, routes).written == written'
  {
    var rest := input[consumed..];
    ServeStep(live, writeFails, rest, routes);
    assert rest[round.consumed..] == input[consumed'..];
    if round.outcome.Ok? {
      SessionContinues(consumed, written, round, Serve(live, writeFails, input[consumed'..], routes));
    }
  }

  /** Rounds run so far, one more round, then the rest: the same as the longer prefix then the rest. */
  lemma SessionContinues(consumed: nat, written: seq<Byte>, c: Round, n: Round)
    ensures Then(consumed, written, Then(c.consumed, c.written, n)) == Then(consumed + c.consumed, written + c.written, n)
  {
    assert written + (c.written + n.written) == (written + c.written) + n.written;
  }

  /** Appending in two steps is appending the two parts at once. */
  lemma AppendAssoc(a: seq<Byte>, b: seq<Byte>, c: seq<Byte>)
    ensures a + (b + c) == (a + b) + c
  {
    assert |a + (b + c)| == |(a + b) + c|;
  }

  /** Dropping i bytes and then j more is dropping i + j. */
  lemma SliceSlice(s: seq<Byte>, i: nat, j: nat)
    requires i + j <= |s|
    ensures s[i..][j..] == s[i + j..]
  {
  }

  /** Without a ping handler in the table a session writes nothing back. */
  lemma {:induction false} SilentWithoutPing(live: bool, writeFails: bool, input: seq<Byte>, routes: map<U32, Kind>)
    requires Ping !in routes.Values
    ensures Serve(live, writeFails, input, routes).written == []
    decreases |input|
  {
    var c := Cycle(live, writeFails, input, routes);
    CycleWrites(live, writeFails, input, routes);
    if c.outcome.Ok? {
      assert c.routed.Some? ==> routes[c.routed.value] in routes.Values;
      SilentWithoutPing(live, writeFails, input[c.consumed..], routes);
    }
  }

  /** A session on a dead connection reads nothing and stops at once. */
  lemma DeadSession(writeFails: bool, input: seq<Byte>, routes: map<U32, Kind>)
    ensures Serve(false, writeFails, input, routes) == Round(Fail(ConnNotAlive), 0, [], None)
  {
  }

  /** The table main.go sets up: ping at 1000, sync at 2000, rpc at 3000. */
  function StartupRoutes(): map<U32, Kind> {
    map[1000 := Ping, 2000 := Sync, 3000 := Rpc]
  }

  /** A ping on a fresh connection is answered with the pong, then the session ends
      when the stream runs dry. */
  lemma PingSession()
    ensures Serve(true, false, EncodeSpec(PacketValue(1000, TYPE_PING, 4, PING)), StartupRoutes())
         == Round(Fail(ReadFailed), 14,
                  [0x00, 0x00, 0x03, 0xE8, 0x00, 0x00, 0x00, 0x00, 0x00, 0x04, 0x70, 0x6F, 0x6E, 0x67], None)
  {
    var input := EncodeSpec(PacketValue(1000, TYPE_PING, 4, PING));
    assert input == Frame(1000, TYPE_PING, |PING|, PING) + [];
    DecodeOfFrame(1000, TYPE_PING, PING, []);
    PongBytes(1000);
    assert input[14..] == [];
  }

  /** The demo client's packet: type 1234, a 36-byte body (a UUID string) with its length,
      for one of the ids 1000, 2000 and 3000. It is 46 bytes. Under the startup table only
      id 1000 is answered (with the pong); then the client closes and the session ends. */
  lemma ClientSession(id: U32, data: seq<Byte>)
    requires id == 1000 || id == 2000 || id == 3000
    requires |data| == 36
    ensures |EncodeSpec(PacketValue(id, TYPE_PING, 36, data))| == 46
    ensures Serve(true, false, EncodeSpec(PacketValue(id, TYPE_PING, 36, data)), StartupRoutes())
         == Round(Fail(ReadFailed), 46, if id == 1000 then EncodeSpec(PongPacket(id)) else [], None)
  {
    var input := EncodeSpec(PacketValue(id, TYPE_PING, 36, data));
    assert input == Frame(id, TYPE_PING, |data|, data) + [];
    DecodeOfFrame(id, TYPE_PING, data, []);
    RoutedRound(false, input, StartupRoutes());
    ServeStep(true, false, input, StartupRoutes());
    assert input[46..] == [];
  }

  /** A packet for the unregistered id 4000 ends the session with nothing written. */
  lemma UnroutableSession()
    ensures Serve(true, false, EncodeSpec(PacketValue(4000, TYPE_PING, 4, PING)), StartupRoutes())
         == Round(Fail(NoChildHandler(TYPE_PING, 4000)), 14, [], None)
  {
    var input := EncodeSpec(PacketValue(4000, TYPE_PING, 4, PING));
    assert input == Frame(4000, TYPE_PING, |PING|, PING) + [];
    UnroutableRound(false, 4000, TYPE_PING, PING, [], StartupRoutes());
  }

  /** What Stop leaves of a connection whose state was s0 when it began: a dead one is
      untouched and still registered; a live one is closed, marked dead and unregistered,
      which takes a close that succeeds. */
  ghost predicate Handled(c: Conn, s0: ConnState, pool: map<U64, Conn>)
    reads c
  {
    || (!s0.alive && c.State() == s0 && c.id in pool)
    || (s0.alive && !c.closeFails && c.State() == s0.(alive := false, closed := true) && c.id !in pool)
  }

  /** c is as it was when Stop began and is still registered. */
  ghost predicate Untouched(c: Conn, s0: ConnState, pool: map<U64, Conn>)
    reads c
  {
    c.State() == s0 && c.id in pool
  }

  /** c was live, its close failed, so it is marked dead but stays registered. */
  ghost predicate CloseFailedOn(c: Conn, s0: ConnState, pool: map<U64, Conn>)
    reads c
  {
    s0.alive && c.closeFails && c.State() == s0.(alive := false) && c.id in pool
  }

  /** `all` lists each connection of pool0 once, and `before` has the state of each. */
  ghost predicate Listed(all: seq<Conn>, pool0: map<U64, Conn>, before: map<Conn, ConnState>)
  {
    && before.Keys == pool0.Values
    && (forall j :: 0 <= j < |all| ==> all[j].id in pool0 && pool0[all[j].id] == all[j])
    && (forall c :: c in pool0.Values ==> c in all)
    && (forall j, k :: 0 <= j < k < |all| ==> all[j] != all[k])
  }

  /** The registry has only lost entries since it was pool0. */
  ghost predicate Shrunk(pool0: map<U64, Conn>, pool: map<U64, Conn>)
  {
    forall k :: k in pool ==> k in pool0 && pool[k] == pool0[k]
  }

  /** Stop has gone through all[..i], and all[i..] is untouched. */
  ghost predicate Stopping(all: seq<Conn>, i: nat, pool0: map<U64, Conn>, before: map<Conn, ConnState>, pool: map<U64, Conn>)
    reads all
  {
    && i <= |all|
    && (forall j :: 0 <= j < |all| ==> all[j] in before)
    && Shrunk(pool0, pool)
    && (forall j :: 0 <= j < i ==> Handled(all[j], before[all[j]], pool))
    && (forall j :: i <= j < |all| ==> Untouched(all[j], before[all[j]], pool))
  }

  /** Stop has gone through all[..i], the close of all[i] failed, and all[i + 1..] is untouched. */
  ghost predicate Halted(all: seq<Conn>, i: nat, pool0: map<U64, Conn>, before: map<Conn, ConnState>, pool: map<U64, Conn>)
    reads all
  {
    && i < |all|
    && (forall j :: 0 <= j < |all| ==> all[j] in before)
    && Shrunk(pool0, pool)
    && (forall j :: 0 <= j < i ==> Handled(all[j], before[all[j]], pool))
    && CloseFailedOn(all[i], before[all[i]], pool)
    && (forall j :: i < j < |all| ==> Untouched(all[j], before[all[j]], pool))
  }

  /** What Stop's loop leaves, against the registry pool0 and the states `before` of its
      connections when Stop began: after the whole list (err is Ok) every connection is
      handled; after a failed close of all[i] that connection was live, is marked dead and
      stays registered, and every other one is handled or untouched. */
  lemma StopOutcome(all: seq<Conn>, i: nat, pool0: map<U64, Conn>, before: map<Conn, ConnState>,
                    pool: map<U64, Conn>, err: Outcome)
    requires Listed(all, pool0, before)
    requires err == Ok ==> Stopping(all, |all|, pool0, before, pool)
    requires err.Fail? ==> err == Fail(CloseFailed) && Halted(all, i, pool0, before, pool)
    ensures Shrunk(pool0, pool)
    ensures err == Ok <==> forall c :: c in pool0.Values && before[c].alive ==> !c.closeFails
    ensures err == Ok ==> forall c :: c in pool0.Values ==> Handled(c, before[c], pool)
    ensures err.Fail? ==>
      exists f :: f in pool0.Values && CloseFailedOn(f, before[f], pool) &&
        forall c :: c in pool0.Values && c != f ==> Handled(c, before[c], pool) || Untouched(c, before[c], pool)
  {
    if err == Ok {
      forall c | c in pool0.Values
        ensures Handled(c, before[c], pool)
      {
        var j :| 0 <= j < |all| && all[j] == c;
      }
    } else {
      forall c | c in pool0.Values && c != all[i]
        ensures Handled(c, before[c], pool) || Untouched(c, before[c], pool)
      {
        var j :| 0 <= j < |all| && all[j] == c;
      }
      assert all[i] in pool0.Values && CloseFailedOn(all[i], before[all[i]], pool);
    }
  }

  class Server {
    const name: string
    const network: string
    const host: string
    const port: int
    const routeHandler: Handler
    const connMgr: ConnectionMgr

    ghost predicate Valid()
      reads this, routeHandler, connMgr
    {
      routeHandler.kind == Router && routeHandler.codec0.Some? && connMgr.Valid()
    }

    /** A server whose route handler has the default codec and whose registry is fresh. */
    constructor Default(name: string, network: string, host: string, port: int)
      ensures Valid() && fresh(routeHandler) && fresh(connMgr)
      ensures routeHandler.codec0 == Some(Codecs.Default()) && routeHandler.conn == null
      ensures connMgr.counter == 0 && connMgr.pool == map[]
      ensures this.name == name && this.network == network && this.host == host && this.port == port
    {
      this.name, this.network, this.host, this.port := name, network, host, port;
      var b := RouteBuilder();
      b := b.Codec(Some(Codecs.Default()));
      routeHandler := b.Build();
      connMgr := new ConnectionMgr();
    }

    /** The session goroutine of Start: run rounds until one fails, then remove the connection
        by its id (a removal error is only logged) and stop. A nil connection fails the first
        round and leaves the registry alone. */
    method Session(conn: Conn?, table: HandlerTable)
      requires Valid() && table.Valid()
      modifies routeHandler`conn, conn, table.children.Values, connMgr`pool, connMgr.pool.Values
      ensures Valid() && routeHandler.conn == conn
      ensures conn == null ==> connMgr.pool == old(connMgr.pool)
      ensures conn == null ==> forall c :: c in old(connMgr.pool.Values) ==> unchanged(c)
      ensures conn != null ==>
        var r := Serve(old(conn.alive), conn.writeFails, old(conn.input), Routes(table.children));
        && conn.input == old(conn.input)[r.consumed..]
        && conn.output == old(conn.output) + r.written
      ensures conn != null && conn.id !in old(connMgr.pool) ==>
        connMgr.pool == old(connMgr.pool) && conn.alive == old(conn.alive) && conn.closed == old(conn.closed)
      ensures conn != null && conn.id in old(connMgr.pool) ==>
        var c := old(connMgr.pool[conn.id]);
        && !c.alive
        && c.closed == (old(c.closed) || (old(c.alive) && !c.closeFails))
        && connMgr.pool == if old(c.alive) && c.closeFails then old(connMgr.pool) else old(connMgr.pool) - {conn.id}
      ensures forall c :: c in old(connMgr.pool.Values) && c != conn &&
                (conn == null || conn.id !in old(connMgr.pool) || c != old(connMgr.pool[conn.id]))
                ==> unchanged(c)
      ensures forall h :: h in table.children.Values ==> h.codec0 == old(h.codec0) && (h.conn == old(h.conn) || h.conn == conn)
    {
      if conn == null {
        // Without a connection the first round fails at once and nothing is removed.
        routeHandler.BindConn(conn);
        var err := routeHandler.HandleMsg0(table);
        return;
      }
      SessionOn(conn, table);
    }

    /** The session goroutine on an accepted connection: serve it, then remove it by its id. */
    method SessionOn(conn: Conn, table: HandlerTable)
      requires Valid() && table.Valid()
      modifies routeHandler`conn, conn, table.children.Values, connMgr`pool, connMgr.pool.Values
      ensures Valid() && routeHandler.conn == conn
      ensures var r := Serve(old(conn.alive), conn.writeFails, old(conn.input), Routes(table.children));
        && conn.input == old(conn.input)[r.consumed..]
        && conn.output == old(conn.output) + r.written
      ensures conn.id !in old(connMgr.pool) ==>
        connMgr.pool == old(connMgr.pool) && conn.alive == old(conn.alive) && conn.closed == old(conn.closed)
      ensures conn.id in old(connMgr.pool) ==>
        var c := old(connMgr.pool[conn.id]);
        && !c.alive
        && c.closed == (old(c.closed) || (old(c.alive) && !c.closeFails))
        && connMgr.pool == if old(c.alive) && c.closeFails then old(connMgr.pool) else old(connMgr.pool) - {conn.id}
      ensures forall c :: c in old(connMgr.pool.Values) && c != conn &&
                (conn.id !in old(connMgr.pool) || c != old(connMgr.pool[conn.id]))
                ==> unchanged(c)
      ensures forall h :: h in table.children.Values ==> h.codec0 == old(h.codec0) && (h.conn == old(h.conn) || h.conn == conn)
    {
      var err := ServeRounds(conn, table);
      var removeErr := connMgr.RemoveConnByID(conn.id);
    }

    /** The loop of the session goroutine on an accepted connection: run rounds for as long
        as they succeed. */
    method ServeRounds(conn: Conn, table: HandlerTable) returns (err: Outcome)
      requires routeHandler.kind == Router && routeHandler.codec0.Some? && table.Valid()
      modifies routeHandler`conn, conn, table.children.Values
      ensures routeHandler.conn == conn
      ensures err == Serve(old(conn.alive), conn.writeFails, old(conn.input), Routes(table.children)).outcome
      ensures var r := Serve(old(conn.alive), conn.writeFails, old(conn.input), Routes(table.children));
        conn.State() == old(conn.State()).(input := old(conn.input)[r.consumed..], output := old(conn.output) + r.written)
      ensures forall h :: h in table.children.Values ==> h.codec0 == old(h.codec0) && (h.conn == old(h.conn) || h.conn == conn)
    {
      ghost var routes := Routes(table.children);
      ghost var start := conn.State();
      ghost var consumed: nat := 0;
      ghost var written: seq<Byte> := [];
      ProgressAtStart(start.alive, conn.writeFails, start.input, routes);
      routeHandler.BindConn(conn);
      while true
        invariant routeHandler.codec0 == old(routeHandler.codec0) && routeHandler.conn == conn
        invariant table.children == old(table.children) && routes == Routes(table.children)
        invariant consumed <= |start.input|
        invariant conn.State() == start.(input := start.input[consumed..], output := start.output + written)
        invariant Serve(start.alive, conn.writeFails, start.input, routes)
               == Then(consumed, written, Serve(start.alive, conn.writeFails, start.input[consumed..], routes))
        invariant forall h :: h in table.children.Values ==> h.codec0 == old(h.codec0) && (h.conn == old(h.conn) || h.conn == conn)
        decreases |conn.input|
      {
        ghost var round, consumed', written';
        err, round, consumed', written' := RunRound(conn, table, routes, start, consumed, written);
        ServeAdvance(start.alive, conn.writeFails, start.input, routes, consumed, written, round, consumed', written');
        consumed, written := consumed', written';
        if err.Fail? {
          return;
        }
      }
    }

    /** One pass of the session loop: bind the connection to the route handler and run a round.
        `consumed` and `written` count what the session has read and written since `start`. */
    method RunRound(conn: Conn, table: HandlerTable, ghost routes: map<U32, Kind>,
                    ghost start: ConnState, ghost consumed: nat, ghost written: seq<Byte>)
      returns (err: Outcome, ghost round: Round, ghost consumed': nat, ghost written': seq<Byte>)
      requires routeHandler.kind == Router && routeHandler.codec0.Some? && table.Valid() && routes == Routes(table.children)
      requires consumed <= |start.input|
      requires conn.State() == start.(input := start.input[consumed..], output := start.output + written)
      modifies routeHandler`conn, conn, table.children.Values
      ensures routeHandler.conn == conn && table.children == old(table.children)
      ensures round == Cycle(start.alive, conn.writeFails, start.input[consumed..], routes) && err == round.outcome
      ensures consumed' == consumed + round.consumed <= |start.input| && written' == written + round.written
      ensures conn.State() == start.(input := start.input[consumed'..], output := start.output + written')
      ensures forall h :: h in table.children.Values ==> h.codec0 == old(h.codec0) && (h.conn == old(h.conn) || h.conn == conn)
    {
      round := Cycle(conn.alive, conn.writeFails, conn.input, routes);
      SliceSlice(start.input, consumed, round.consumed);
      AppendAssoc(start.output, written, round.written);
      consumed', written' := consumed + round.consumed, written + round.written;
      routeHandler.BindConn(conn);
      err := routeHandler.HandleMsg0(table);
    }

    /** Removes every registered connection that is still alive, in the registry's order,
        skipping dead ones; the first removal error is returned at once. */
    method Stop() returns (err: Outcome)
      requires Valid()
      modifies connMgr`pool, connMgr.pool.Values
      ensures Valid() && Shrunk(old(connMgr.pool), connMgr.pool)
      ensures err == Ok <==> forall c :: c in old(connMgr.pool.Values) && old(c.alive) ==> !c.closeFails
      ensures err == Ok ==> forall c :: c in old(connMgr.pool.Values) ==> Handled(c, old(c.State()), connMgr.pool)
      ensures err.Fail? ==> err == Fail(CloseFailed)
      ensures err.Fail? ==>
        exists f :: f in old(connMgr.pool.Values) && CloseFailedOn(f, old(f.State()), connMgr.pool) &&
          forall c :: c in old(connMgr.pool.Values) && c != f ==>
            Handled(c, old(c.State()), connMgr.pool) || Untouched(c, old(c.State()), connMgr.pool)
    {
      var all := connMgr.All();
      ghost var pool0 := connMgr.pool;
      ghost var before := map c | c in old(connMgr.pool.Values) :: old(c.State());
      assert Listed(all, pool0, before);
      ghost var i;
      err, i := StopLoop(all, pool0, before);
      StopOutcome(all, i, pool0, before, connMgr.pool, err);
    }

    /** The loop of Stop over the listed connections, up to the first removal error;
        i is where it stopped. */
    method StopLoop(all: seq<Conn>, ghost pool0: map<U64, Conn>, ghost before: map<Conn, ConnState>)
      returns (err: Outcome, ghost i: nat)
      requires connMgr.Valid() && Listed(all, pool0, before)
      requires Stopping(all, 0, pool0, before, connMgr.pool)
      modifies connMgr`pool, set j | 0 <= j < |all| :: all[j]
      ensures connMgr.Valid()
      ensures err == Ok ==> Stopping(all, |all|, pool0, before, connMgr.pool)
      ensures err.Fail? ==> err == Fail(CloseFailed) && Halted(all, i, pool0, before, connMgr.pool)
    {
      var k := 0;
      err := Ok;
      while k < |all|
        invariant connMgr.Valid() && k <= |all| && err == Ok
        invariant Stopping(all, k, pool0, before, connMgr.pool)
      {
        err := StopAt(all, k, pool0, before);
        if err.Fail? {
          i := k;
          return;
        }
        k := k + 1;
      }
      i := k;
    }

    /** One pass of Stop's loop: remove all[i] when it is alive. */
    method StopAt(all: seq<Conn>, i: nat, ghost pool0: map<U64, Conn>, ghost before: map<Conn, ConnState>)
      returns (err: Outcome)
      requires connMgr.Valid() && Listed(all, pool0, before) && i < |all|
      requires Stopping(all, i, pool0, before, connMgr.pool)
      modifies connMgr`pool, all[i]
      ensures connMgr.Valid()
      ensures err.Ok? ==> Stopping(all, i + 1, pool0, before, connMgr.pool)
      ensures err.Fail? ==> err == Fail(CloseFailed) && Halted(all, i, pool0, before, connMgr.pool)
    {
      var conn := all[i];
      if conn.alive {
        err := connMgr.RemoveConnByID(conn.id);
        forall j | 0 <= j < |all| && j != i
          ensures j < i ==> Handled(all[j], before[all[j]], connMgr.pool)
          ensures i < j ==> Untouched(all[j], before[all[j]], connMgr.pool)
        {
          assert all[j].id != conn.id;
          assert all[j].State() == old(all[j].State());
        }
        if err.Fail? {
          assert CloseFailedOn(conn, before[conn], connMgr.pool);
        } else {
          assert Handled(conn, before[conn], connMgr.pool);
        }
      } else {
        err := Ok;
      }
    }
  }

  /** main.go's server answering one ping: a server from Default with the startup table,
      a connection accepted with one ping frame on its stream, and its session. The pong is
      written back; when the stream runs dry the connection is closed and unregistered. */
  method PingScenario() returns (server: Server, conn: Conn)
    ensures conn.output == [0x00, 0x00, 0x03, 0xE8, 0x00, 0x00, 0x00, 0x00, 0x00, 0x04, 0x70, 0x6F, 0x6E, 0x67]
    ensures conn.input == [] && !conn.alive && conn.closed
    ensures server.connMgr.pool == map[]
  {
    var table;
    server, conn, table := StartupServer(1000);
    assert conn.input == EncodeSpec(PacketValue(1000, TYPE_PING, 4, PING));
    PingSession();
    server.SessionOn(conn, table);
    assert server.connMgr.pool.Keys == {};
  }

  /** The same server sent a packet for the unregistered id 4000: nothing is written back,
      and the connection is closed and unregistered. */
  method UnroutableScenario() returns (server: Server, conn: Conn)
    ensures conn.output == [] && conn.input == [] && !conn.alive && conn.closed
    ensures server.connMgr.pool == map[]
  {
    var table;
    server, conn, table := StartupServer(4000);
    assert conn.input == EncodeSpec(PacketValue(4000, TYPE_PING, 4, PING));
    UnroutableSession();
    server.SessionOn(conn, table);
    assert server.connMgr.pool.Keys == {};
  }

  /** The setup of the scenarios: main.go's table, a server from Default, and one accepted
      connection whose stream holds a ping packet for routing key `id`, and whose close and
      writes succeed. */
  method StartupServer(id: U32) returns (server: Server, conn: Conn, table: HandlerTable)
    ensures server.Valid() && table.Valid() && Routes(table.children) == StartupRoutes()
    ensures fresh(server.routeHandler) && fresh(server.connMgr) && fresh(conn) && fresh(table)
    ensures forall h :: h in table.children.Values ==> fresh(h)
    ensures conn.State() == ConnState(true, false, EncodeSpec(PacketValue(id, TYPE_PING, 4, PING)), [])
    ensures table.children.Keys == {1000, 2000, 3000}
    ensures table.children[1000].codec0 == Some(Default()) && table.children[2000].codec0 == None
    ensures table.children[3000].codec0 == Some(Default())
    ensures !conn.closeFails && !conn.writeFails
    ensures server.connMgr.pool == map[conn.id := conn]
  {
    table := new HandlerTable();
    var ping := new Handler(Ping, None);
    ping.SetCodec(Some(Default()));
    table.RegisterChildHandler(1000, ping);
    assert Routes(table.children) == StartupRoutes();
    server := new Server.Default("mint_server1", "tcp", "0.0.0.0", 9000);
    var input := EncodeSpec(PacketValue(id, TYPE_PING, 4, PING));
    var accepted := New(server.connMgr, Some(Socket("127.0.0.1", input, false, false)));
    conn := accepted;
  }
}
