/** `TCPServer`: the same line-echo server on the standard library's
    listener. The standard connections and listener are outside the model
    except for what the server relies on: a connection's remote address text
    is fixed, and every `Close` call is counted and returns the outcome it
    is given. */
module StdServer {
  import opened Net
  import opened Lifecycle
  import opened Protocol
  import Registry

  /** A connection returned by the standard listener. */
  class StdConn {
    /** `RemoteAddr().String()`, which never changes. */
    const remoteKey: string
    /** How many times `Close` has been called. */
    var closeCalls: nat

    constructor (remoteKey: string)
      ensures this.remoteKey == remoteKey && closeCalls == 0
    {
      this.remoteKey := remoteKey;
      closeCalls := 0;
    }

    method Close(sys: Option<Errno>) returns (err: Option<Errno>)
      modifies this
      ensures closeCalls == old(closeCalls) + 1 && err == sys
    {
      closeCalls := closeCalls + 1;
      err := sys;
    }
  }

  /** The listener `net.Listen("tcp", address)` returned. */
  class StdListener {
    const address: string
    var closeCalls: nat

    constructor (address: string)
      ensures this.address == address && closeCalls == 0
    {
      this.address := address;
      closeCalls := 0;
    }

    method Close(sys: Option<Errno>) returns (err: Option<Errno>)
      modifies this
      ensures closeCalls == old(closeCalls) + 1 && err == sys
    {
      closeCalls := closeCalls + 1;
      err := sys;
    }
  }

  /** The registry key of a standard connection; it always has one. */
  function Key(c: StdConn): (k: Option<string>)
  {
    Some(c.remoteKey)
  }

  /** The address `Start` listens on: `"%s:%d"` of the host and the port. */
  function ListenAddress(address: string, port: int): (s: string)
  {
    address + (":" + IntToString(port))
  }

  /** For a host without a colon (an IPv4 literal or a host name) the listen
      address determines the host and the port. */
  lemma ListenAddressInjective(a: string, p: int, b: string, q: int)
    requires ':' !in a && ':' !in b
    ensures ListenAddress(a, p) == ListenAddress(b, q) ==> a == b && p == q
  {
    if ListenAddress(a, p) == ListenAddress(b, q) {
      SplitAtSeparator(a, IntToString(p), b, IntToString(q), ':');
      IntToStringInjective(p, q);
    }
  }

  /** The standard accept loop never panics: every accepted connection has a
      remote address. */
  lemma NeverCrashes(running: bool, events: seq<AcceptEvent<StdConn>>)
    ensures Run(running, events, Key).0 != Crashed
  {
  }

  /** Every connection of the registry `m` is stored under its own remote address. */
  ghost predicate Keyed(m: map<string, StdConn>)
  {
    forall k | k in m :: m[k].remoteKey == k
  }

  class TCPServer {
    const address: string
    const port: int
    var listener: StdListener?
    var connections: map<string, StdConn>
    var running: bool

    ghost predicate Valid()
      reads this
    {
      Keyed(connections)
    }

    /** `NewTCPServer`: running, with no listener and no connections. */
    constructor (address: string, port: int)
      ensures Valid()
      ensures this.address == address && this.port == port
      ensures running && listener == null && connections == map[]
    {
      this.address := address;
      this.port := port;
      listener := null;
      connections := map[];
      running := true;
    }

    /** `Start`: listens on `ListenAddress(address, port)` (`listenErr` is what
        `net.Listen` reported) and runs the accept loop on `events`. When
        listening fails the error is wrapped and nothing changes. */
    method Start(listenErr: Option<Errno>, events: seq<AcceptEvent<StdConn>>)
      returns (res: LoopExit, consumed: nat)
      requires Valid()
      modifies this
      ensures Valid()
      ensures listenErr.Some? ==>
        res == Fatal("failed to start server: " + listenErr.value) && consumed == 0
        && listener == old(listener) && connections == old(connections) && running == old(running)
      ensures listenErr.None? ==>
        && listener != null && fresh(listener) && listener.closeCalls == 0
        && listener.address == ListenAddress(address, port)
        && (res, consumed, running) == Run(old(running), events, Key)
        && connections == Registry.StoreAll(old(connections), Stored(events[..consumed], Key))
    {
      var addr := address + (":" + IntToString(port));
      if listenErr.Some? {
        return Fatal("failed to start server: " + listenErr.value), 0;
      }
      listener := new StdListener(addr);
      res, consumed := AcceptConnections(events);
    }

    /** `Stop`: clears the running flag; if a listener exists, closes every
        registered connection and then the listener, returning the listener's
        close result. `connClose(k)` is what closing the connection under key
        `k` returns. */
    method Stop(connClose: string -> Option<Errno>, listenerClose: Option<Errno>) returns (err: Option<Errno>)
      requires Valid()
      modifies this, connections.Values, listener
      ensures Valid() && !running
      ensures listener == old(listener) && connections == old(connections)
      ensures listener == null ==> err == None && forall c | c in connections.Values :: unchanged(c)
      ensures listener != null ==>
        && (forall c | c in connections.Values :: c.closeCalls == old(c.closeCalls) + 1)
        && listener.closeCalls == old(listener.closeCalls) + 1
        && err == listenerClose
    {
      running := false;
      if listener == null {
        return None;
      }
      CloseAll(connections.Values, connClose);
      err := listener.Close(listenerClose);
    }

    /** `acceptConnections`: the loop of `Lifecycle.Run`, storing every
        accepted connection under its remote address. */
    method AcceptConnections(events: seq<AcceptEvent<StdConn>>) returns (res: LoopExit, consumed: nat)
      requires Valid()
      modifies this`running, this`connections
      ensures Valid()
      ensures (res, consumed, running) == Run(old(running), events, Key)
      ensures connections == Registry.StoreAll(old(connections), Stored(events[..consumed], Key))
    {
      consumed := 0;
      ghost var goal := Run(running, events, Key);
      while running
        invariant consumed <= |events|
        invariant running ==> goal == Shifted(consumed, Run(true, events[consumed..], Key))
        invariant !running ==> goal == (Stopped, consumed, false)
        invariant connections == Registry.StoreAll(old(connections), Stored(events[..consumed], Key))
        invariant Valid()
        decreases |events| - consumed, running
      {
        if consumed == |events| {
          return StillAccepting, consumed;
        }
        StoreStep(old(connections), events, consumed, Key);
        var ret := Iteration(events[consumed]);
        Advance(events, consumed, Key, goal, ret, running);
        consumed := consumed + 1;
        if ret.Some? {
          return ret.value, consumed;
        }
      }
      res := Stopped;
    }

    /** One iteration of `acceptConnections` after the flag test, on the event
        `e`: `Some(x)` when the loop returns `x`, `None` when it goes back to
        the flag test. */
    method Iteration(e: AcceptEvent<StdConn>) returns (ret: Option<LoopExit>)
      requires Valid() && running
      modifies this`running, this`connections
      ensures Valid()
      ensures ret == if Continues(e, Key) || e.StopBetween? then None else Some(Ending(e, Key))
      ensures running <==> !(e.StopBetween? || e.StopDuringAccept?)
      ensures connections == if e.Accepted? then old(connections)[e.conn.remoteKey := e.conn] else old(connections)
    {
      match e {
        case Accepted(c) =>
          connections := connections[c.remoteKey := c];
          return None;
        case AcceptError(err, isNetError) =>
          if !isNetError {
            return Some(Fatal(err));
          }
          return None;
        case StopDuringAccept(_) =>
          running := false;
          return Some(Stopped);
        case StopBetween =>
          running := false;
          return None;
      }
    }

    /** `handleConnection`: serves the session, then always closes the
        connection and removes its registry entry. */
    method HandleConnection(conn: StdConn, rs: seq<ReadEvent>, ws: seq<WriteEvent>, closeSys: Option<Errno>)
      returns (t: Transcript)
      requires Valid()
      modifies this`connections, conn
      ensures Valid()
      ensures t == Session(rs, ws)
      ensures conn.closeCalls == old(conn.closeCalls) + 1
      ensures connections == old(connections) - {conn.remoteKey}
    {
      t := Serve(rs, ws);
      var _ := conn.Close(closeSys);
      connections := connections - {conn.remoteKey};
    }
  }

  /** Closes every connection of `conns` once, in some order. */
  method CloseAll(conns: set<StdConn>, connClose: string -> Option<Errno>)
    modifies conns
    ensures forall c | c in conns :: c.closeCalls == old(c.closeCalls) + 1
  {
    var pending := conns;
    while pending != {}
      invariant pending <= conns
      invariant forall c | c in conns - pending :: c.closeCalls == old(c.closeCalls) + 1
      invariant forall c | c in pending :: unchanged(c)
      decreases pending
    {
      var c :| c in pending;
      var _ := c.Close(connClose(c.remoteKey));
      pending := pending - {c};
    }
  }
}
