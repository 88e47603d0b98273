/** `RawTCPServer`: the line-echo server built on the raw listener. Its
    registry maps the text of each connection's remote address to the
    connection; `Stop` may run while the accept loop and the handlers run,
    which the model expresses with the events of `Lifecycle`. */
module RawServer {
  import opened Net
  import opened RawConn
  import opened RawListener
  import opened Lifecycle
  import opened Protocol
  import Registry

  /** The registry key of a raw connection: its remote address in
      `host:port` form, or `None` when it has no remote address. */
  function Key(c: Conn): (k: Option<string>)
  {
    match c.remoteAddr
    case Some(a) => Some(AddrString(a))
    case None => None
  }

  /** Two connections from different peers never share a registry key. */
  lemma KeysDistinguishPeers(c: Conn, d: Conn)
    requires c.remoteAddr.Some? && d.remoteAddr.Some?
    ensures Key(c) == Key(d) <==> c.remoteAddr == d.remoteAddr
  {
    AddrStringInjective(c.remoteAddr.value, d.remoteAddr.value);
  }

  /** The raw listener's `Accept` never fails, so the loop only ever sees
      accepted connections and stops between iterations; on such events it
      never returns an accept error. */
  lemma {:induction false} NeverFatal(running: bool, events: seq<AcceptEvent<Conn>>)
    requires forall i | 0 <= i < |events| :: events[i].Accepted? || events[i].StopBetween?
    ensures !Run(running, events, Key).0.Fatal?
  {
    if running && events != [] && Continues(events[0], Key) {
      NeverFatal(true, events[1..]);
    }
  }

  /** Every connection of the registry `m` is stored under its own remote
      address. */
  ghost predicate Keyed(m: map<string, Conn>)
  {
    forall k | k in m :: Key(m[k]) == Some(k)
  }

  /** Every connection of `conns` has released its descriptor at most once. */
  ghost predicate AllValid(conns: set<Conn>)
    reads conns
  {
    forall c | c in conns :: c.Valid()
  }

  class RawTCPServer {
    const address: string
    const port: int
    var listener: Listener?
    var connections: map<string, Conn>
    var running: bool

    /** Every registered connection is stored under its own remote address and
        has released its descriptor at most once; so has the listener. */
    ghost predicate Valid()
      reads this, connections.Values, listener
    {
      Keyed(connections) && AllValid(connections.Values) && (listener != null ==> listener.Valid())
    }

    /** `NewRawTCPServer`: running, with no listener and no connections. */
    constructor (address: string, port: int)
      ensures Valid()
      ensures this.address == address && this.port == port
      ensures running && listener == null && connections == map[]
    {
      this.address := address;
      this.port := port;
      listener := null;
      connections := map[];
      running := true;
    }

    /** `Start`: opens the listener and runs the accept loop on `events`.
        When the setup fails the error is wrapped and nothing changes. */
    method Start(parsed: Option<IP>, sys: SetupOutcomes, events: seq<AcceptEvent<Conn>>)
      returns (res: LoopExit, consumed: nat)
      requires Valid()
      requires parsed.Some? ==> MayBeIPLiteral(address)
      requires forall i | 0 <= i < |events| && events[i].Accepted? :: events[i].conn.Valid()
      modifies this
      ensures Valid()
      ensures SetupError(parsed, sys).Some? ==>
        res == Fatal("failed to start server: " + SetupError(parsed, sys).value) && consumed == 0
        && listener == old(listener) && connections == old(connections) && running == old(running)
      ensures SetupError(parsed, sys).None? ==>
        && listener != null && fresh(listener) && !listener.closed && listener.handoff == None
        && listener.socket == sys.socket.value && listener.sockaddr == Inet4(port, BoundBytes(parsed.value))
        && (res, consumed, running) == Run(old(running), events, Key)
        && connections == Registry.StoreAll(old(connections), Stored(events[..consumed], Key))
    {
      var l, _ := NewCustomListener(address, port, parsed, sys);
      if l.Failure? {
        return Fatal("failed to start server: " + l.error), 0;
      }
      listener := l.value;
      res, consumed := AcceptConnections(events);
    }

    /** `Stop`: clears the running flag; if a listener exists, closes every
        registered connection and then the listener, returning the listener's
        close result. `connClose(fd)` is what `close(2)` returns for `fd`. */
    method Stop(connClose: int -> Option<Errno>, listenerClose: Option<Errno>) returns (err: Option<Errno>)
      requires Valid()
      modifies this, connections.Values, listener
      ensures Valid() && !running
      ensures listener == old(listener) && connections == old(connections)
      ensures listener == null ==> err == None && forall c | c in connections.Values :: unchanged(c)
      ensures listener != null ==>
        && (forall c | c in connections.Values ::
              c.closed && c.releases == (if old(c.closed) then old(c.releases) else old(c.releases) + 1))
        && listener.closed && listener.releases == 1 && listener.handoff == old(listener.handoff)
        && err == (if old(listener.closed) then None else listenerClose)
    {
      running := false;
      if listener == null {
        return None;
      }
      CloseAll(connections.Values, connClose);
      err := listener.Close(listenerClose);
    }

    /** `acceptConnections`: the loop of `Lifecycle.Run`, storing every
        accepted connection under its remote address. */
    method AcceptConnections(events: seq<AcceptEvent<Conn>>) returns (res: LoopExit, consumed: nat)
      requires Valid()
      requires forall i | 0 <= i < |events| && events[i].Accepted? :: events[i].conn.Valid()
      modifies this`running, this`connections
      ensures Valid()
      ensures (res, consumed, running) == Run(old(running), events, Key)
      ensures connections == Registry.StoreAll(old(connections), Stored(events[..consumed], Key))
    {
      consumed := 0;
      ghost var goal := Run(running, events, Key);
      while running
        invariant consumed <= |events|
        invariant running ==> goal == Shifted(consumed, Run(true, events[consumed..], Key))
        invariant !running ==> goal == (Stopped, consumed, false)
        invariant connections == Registry.StoreAll(old(connections), Stored(events[..consumed], Key))
        invariant Keyed(connections) && AllValid(connections.Values)
        decreases |events| - consumed, running
      {
        if consumed == |events| {
          return StillAccepting, consumed;
        }
        StoreStep(old(connections), events, consumed, Key);
        var ret := Iteration(events[consumed]);
        Advance(events, consumed, Key, goal, ret, running);
        consumed := consumed + 1;
        if ret.Some? {
          return ret.value, consumed;
        }
      }
      res := Stopped;
    }

    /** One iteration of `acceptConnections` after the flag test, on the event
        `e`: `Some(x)` when the loop returns `x`, `None` when it goes back to
        the flag test. An accepted connection is stored under its remote
        address; a stop clears the flag. */
    method Iteration(e: AcceptEvent<Conn>) returns (ret: Option<LoopExit>)
      requires Valid() && running
      requires e.Accepted? ==> e.conn.Valid()
      modifies this`running, this`connections
      ensures Valid()
      ensures ret == if Continues(e, Key) || e.StopBetween? then None else Some(Ending(e, Key))
      ensures running <==> !(e.StopBetween? || e.StopDuringAccept?)
      ensures ret.Some? ==> (running <==> ret.value != Stopped)
      ensures connections ==
        if e.Accepted? && Key(e.conn).Some? then old(connections)[Key(e.conn).value := e.conn]
        else old(connections)
    {
      match e {
        case Accepted(c) =>
          var key := Key(c);
          if key.None? {
            return Some(Crashed);
          }
          connections := connections[key.value := c];
          return None;
        case AcceptError(err, isNetError) =>
          if !isNetError {
            return Some(Fatal(err));
          }
          return None;
        case StopDuringAccept(_) =>
          running := false;
          return Some(Stopped);
        case StopBetween =>
          running := false;
          return None;
      }
    }

    /** `handleConnection`: serves the session, then always closes the
        connection and removes its registry entry. A connection without a
        remote address makes the handler panic (after closing it) before it
        serves anything; the result is then `None`. */
    method HandleConnection(conn: Conn, rs: seq<ReadEvent>, ws: seq<WriteEvent>, closeSys: Option<Errno>)
      returns (t: Option<Transcript>)
      requires Valid() && conn.Valid()
      modifies this`connections, conn
      ensures Valid() && conn.closed
      ensures conn.releases == if old(conn.closed) then old(conn.releases) else old(conn.releases) + 1
      ensures Key(conn).Some? ==>
        t == Some(Session(rs, ws)) && connections == old(connections) - {Key(conn).value}
      ensures Key(conn).None? ==> t == None && connections == old(connections)
    {
      var key := Key(conn);
      if key.None? {
        var _ := conn.Close(closeSys);
        return None;
      }
      var transcript := Serve(rs, ws);
      var _ := conn.Close(closeSys);
      connections := connections - {key.value};
      t := Some(transcript);
    }
  }

  /** Closes every connection of `conns`, in some order: each releases its
      descriptor unless it was already closed. */
  method CloseAll(conns: set<Conn>, connClose: int -> Option<Errno>)
    requires forall c | c in conns :: c.Valid()
    modifies conns
    ensures forall c | c in conns ::
      c.Valid() && c.closed && c.releases == (if old(c.closed) then old(c.releases) else old(c.releases) + 1)
  {
    var pending := conns;
    while pending != {}
      invariant pending <= conns
      invariant forall c | c in conns - pending ::
        c.Valid() && c.closed && c.releases == (if old(c.closed) then old(c.releases) else old(c.releases) + 1)
      invariant forall c | c in pending :: unchanged(c) && c.Valid()
      decreases pending
    {
      var c :| c in pending;
      var _ := c.Close(connClose(c.fd));
      pending := pending - {c};
    }
  }
}
