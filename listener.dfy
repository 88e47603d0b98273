/** `CustomListener`: a listening IPv4 socket built directly from syscalls,
    with a background accept loop that hands each accepted connection over
    to `Accept`. Syscall outcomes are parameters; the handoff channel is a
    one-place slot (the unbuffered channel lets at most one accepted
    connection wait for its receiver). */
module RawListener {
  import opened Net
  import opened RawConn

  /** The syscalls the listener setup issues, in the order it issues them. */
  datatype Syscall =
    | SocketCall
    | SetsockoptCall(fd: int)
    | BindCall(fd: int, sa: Sockaddr)
    | ListenCall(fd: int)
    | CloseCall(fd: int)

  /** What `socket(2)`, `setsockopt(2)`, `bind(2)` and `listen(2)` return. */
  datatype SetupOutcomes = SetupOutcomes(
    socket: Result<int, Errno>,
    setsockopt: Option<Errno>,
    bind: Option<Errno>,
    listen: Option<Errno>)

  /** How many times a trace closes descriptor `fd`. */
  function Closes(calls: seq<Syscall>, fd: int): (n: nat)
  {
    if calls == [] then 0
    else (if calls[0] == CloseCall(fd) then 1 else 0) + Closes(calls[1..], fd)
  }

  lemma {:induction false} ClosesAppend(a: seq<Syscall>, b: seq<Syscall>, fd: int)
    ensures Closes(a + b, fd) == Closes(a, fd) + Closes(b, fd)
  {
    if a == [] {
      assert a + b == b;
    } else {
      assert (a + b)[1..] == a[1..] + b;
      ClosesAppend(a[1..], b, fd);
    }
  }

  /** The error the setup ladder reports, or `None` when every step succeeds:
      the first step that fails decides it. */
  function SetupError(parsed: Option<IP>, sys: SetupOutcomes): (err: Option<string>)
  {
    if sys.socket.Failure? then Some("failed to create socket: " + sys.socket.error)
    else if sys.setsockopt.Some? then Some("failed to set socket options: " + sys.setsockopt.value)
    else if parsed.None? then Some("invalid IP address")
    else if sys.bind.Some? then Some("failed to bind: " + sys.bind.value)
    else if sys.listen.Some? then Some("failed to listen: " + sys.listen.value)
    else None
  }

  /** A host name is never an IP literal, so a listener asked for
      `localhost` (the address the example programs pass) fails once the
      socket exists, whatever the system calls would have returned. */
  lemma LocalhostIsRefused(parsed: Option<IP>, sys: SetupOutcomes)
    requires parsed.Some? ==> MayBeIPLiteral("localhost")
    requires sys.socket.Success? && sys.setsockopt.None?
    ensures SetupError(parsed, sys) == Some("invalid IP address")
  {
    assert !IsIPChar("localhost"[0]);
  }

  /** The setup ladder of `NewCustomListener`: socket, SO_REUSEADDR, parse the
      address, bind, listen. `parsed` is what `net.ParseIP(address)` returned;
      a parse can only succeed on a string made of IP-literal characters. */
  method OpenSocket(address: string, port: int, parsed: Option<IP>, sys: SetupOutcomes)
    returns (r: Result<(int, Sockaddr), string>, calls: seq<Syscall>)
    requires parsed.Some? ==> MayBeIPLiteral(address)
    ensures |calls| >= 1 && calls[0] == SocketCall
    // socket creation failed: nothing to close
    ensures sys.socket.Failure? ==>
      r == Failure("failed to create socket: " + sys.socket.error) && calls == [SocketCall]
    // once the socket exists, it is closed exactly on the failure paths, once, as the last call
    ensures sys.socket.Success? ==>
      Closes(calls, sys.socket.value) == (if r.Success? then 0 else 1)
      && (r.Failure? ==> calls[|calls| - 1] == CloseCall(sys.socket.value))
      && (r.Success? ==> CloseCall(sys.socket.value) !in calls)
    ensures sys.socket.Success? && sys.setsockopt.Some? ==>
      var fd := sys.socket.value;
      r == Failure("failed to set socket options: " + sys.setsockopt.value)
      && calls == [SocketCall, SetsockoptCall(fd), CloseCall(fd)]
    ensures sys.socket.Success? && sys.setsockopt.None? && parsed.None? ==>
      var fd := sys.socket.value;
      r == Failure("invalid IP address") && calls == [SocketCall, SetsockoptCall(fd), CloseCall(fd)]
    // in particular a host name such as "localhost" is refused as an invalid IP address
    ensures sys.socket.Success? && sys.setsockopt.None? && !MayBeIPLiteral(address) ==>
      r == Failure("invalid IP address")
    ensures sys.socket.Success? && sys.setsockopt.None? && parsed.Some? ==>
      var fd := sys.socket.value;
      var sa := Inet4(port, BoundBytes(parsed.value));
      && |calls| >= 3 && calls[..3] == [SocketCall, SetsockoptCall(fd), BindCall(fd, sa)]
      && (sys.bind.Some? ==>
            r == Failure("failed to bind: " + sys.bind.value) && calls == calls[..3] + [CloseCall(fd)])
      && (sys.bind.None? && sys.listen.Some? ==>
            r == Failure("failed to listen: " + sys.listen.value) && calls == calls[..3] + [ListenCall(fd), CloseCall(fd)])
      && (sys.bind.None? && sys.listen.None? ==>
            r == Success((fd, sa)) && calls == calls[..3] + [ListenCall(fd)])
    ensures r.Success? <==>
      sys.socket.Success? && sys.setsockopt.None? && parsed.Some? && sys.bind.None? && sys.listen.None?
    ensures r.Failure? <==> SetupError(parsed, sys).Some?
    ensures r.Failure? ==> r.error == SetupError(parsed, sys).value
  {
    calls := [SocketCall];
    if sys.socket.Failure? {
      return Failure("failed to create socket: " + sys.socket.error), calls;
    }
    var fd := sys.socket.value;

    ClosesAppend(calls, [SetsockoptCall(fd)], fd);
    calls := calls + [SetsockoptCall(fd)];
    if sys.setsockopt.Some? {
      ClosesAppend(calls, [CloseCall(fd)], fd);
      calls := calls + [CloseCall(fd)];
      return Failure("failed to set socket options: " + sys.setsockopt.value), calls;
    }

    if parsed.None? {
      ClosesAppend(calls, [CloseCall(fd)], fd);
      calls := calls + [CloseCall(fd)];
      return Failure("invalid IP address"), calls;
    }

    var sa := Inet4(port, BoundBytes(parsed.value));
    ClosesAppend(calls, [BindCall(fd, sa)], fd);
    calls := calls + [BindCall(fd, sa)];
    if sys.bind.Some? {
      ClosesAppend(calls, [CloseCall(fd)], fd);
      calls := calls + [CloseCall(fd)];
      return Failure("failed to bind: " + sys.bind.value), calls;
    }

    ClosesAppend(calls, [ListenCall(fd)], fd);
    calls := calls + [ListenCall(fd)];
    if sys.listen.Some? {
      ClosesAppend(calls, [CloseCall(fd)], fd);
      calls := calls + [CloseCall(fd)];
      return Failure("failed to listen: " + sys.listen.value), calls;
    }

    r := Success((fd, sa));
  }

  /** One outcome of the blocking `accept(2)` in the accept loop. */
  datatype AcceptOutcome =
    | Accepted(nfd: int, peer: Sockaddr)
    | AcceptFailed(err: Errno)
      /** `Close` ran on another goroutine while `accept(2)` was blocked; it
          returned `close(2)`'s result `closeSys` there, and `accept(2)` failed. */
    | ClosedWhileBlocked(closeSys: Option<Errno>)

  /** What one iteration of the accept loop did. */
  datatype Step =
    | Exit
    | Retry
    | Handed(conn: Conn)
      /** The previous connection has not been received yet: the send blocks. */
    | Blocked

  class Listener {
    const socket: int
    const sockaddr: Sockaddr
    var closed: bool
    /** The connection the accept loop is waiting to hand over, if any. */
    var handoff: Option<Conn>
    /** How many times `close(2)` has been issued on `socket` through `Close`. */
    ghost var releases: nat

    ghost predicate Valid()
      reads this
    {
      releases == if closed then 1 else 0
    }

    constructor (socket: int, sockaddr: Sockaddr)
      ensures Valid() && !closed && releases == 0 && handoff == None
      ensures this.socket == socket && this.sockaddr == sockaddr
    {
      this.socket := socket;
      this.sockaddr := sockaddr;
      closed := false;
      handoff := None;
      releases := 0;
    }

    /** The first call marks the listener closed and releases the socket; later
        calls return nil and release nothing. */
    method Close(sys: Option<Errno>) returns (err: Option<Errno>)
      requires Valid()
      modifies this
      ensures Valid() && closed && handoff == old(handoff)
      ensures old(closed) ==> err == None && releases == old(releases)
      ensures !old(closed) ==> err == sys && releases == old(releases) + 1
    {
      if closed {
        return None;
      }
      closed := true;
      releases := releases + 1;
      err := sys;
    }

    /** The bound address, rebuilt from the stored socket address. */
    function Addr(): (a: Option<Net.Addr>)
    {
      SockaddrToAddr(sockaddr)
    }

    /** Receives the connection the accept loop handed over (`None` while
        there is none and the receive would block). It never reports an error. */
    method Accept() returns (c: Option<Conn>, err: Option<Errno>)
      modifies this`handoff
      ensures err == None
      ensures c == old(handoff) && handoff == None
    {
      c := handoff;
      handoff := None;
      err := None;
    }

    /** One iteration of the background accept loop. */
    method AcceptStep(outcome: AcceptOutcome) returns (step: Step)
      requires Valid()
      modifies this
      ensures Valid()
      ensures old(handoff).Some? ==> step == Blocked && unchanged(this)
      ensures old(handoff).None? && old(closed) ==> step == Exit && unchanged(this)
      ensures old(handoff).None? && !old(closed) && outcome.Accepted? ==>
        && step.Handed? && fresh(step.conn)
        && step.conn.Valid() && !step.conn.closed && step.conn.fd == outcome.nfd
        && step.conn.remoteAddr == SockaddrToAddr(outcome.peer)
        && step.conn.localAddr == SockaddrToAddr(sockaddr)
        && handoff == Some(step.conn) && closed == old(closed) && releases == old(releases)
      ensures old(handoff).None? && !old(closed) && outcome.AcceptFailed? ==>
        step == Retry && unchanged(this)
      ensures old(handoff).None? && !old(closed) && outcome.ClosedWhileBlocked? ==>
        step == Exit && closed && releases == old(releases) + 1 && handoff == None
    {
      if handoff.Some? {
        return Blocked;
      }
      if closed {
        return Exit;
      }
      match outcome {
        case Accepted(nfd, peer) =>
          var conn := new Conn(nfd, SockaddrToAddr(peer), Addr());
          handoff := Some(conn);
          step := Handed(conn);
        case AcceptFailed(_) =>
          step := if closed then Exit else Retry;
        case ClosedWhileBlocked(closeSys) =>
          var _ := Close(closeSys);
          step := if closed then Exit else Retry;
      }
    }
  }

  /** `NewCustomListener`: on success the listener holds the new socket and its
      bound address and is open; the trace and the error are `OpenSocket`'s. */
  method NewCustomListener(address: string, port: int, parsed: Option<IP>, sys: SetupOutcomes)
    returns (r: Result<Listener, string>, calls: seq<Syscall>)
    requires parsed.Some? ==> MayBeIPLiteral(address)
    ensures r.Success? <==>
      sys.socket.Success? && sys.setsockopt.None? && parsed.Some? && sys.bind.None? && sys.listen.None?
    ensures r.Success? ==>
      && fresh(r.value) && r.value.Valid() && !r.value.closed && r.value.handoff == None
      && r.value.socket == sys.socket.value
      && r.value.sockaddr == Inet4(port, BoundBytes(parsed.value))
    ensures sys.socket.Success? ==> Closes(calls, sys.socket.value) == (if r.Success? then 0 else 1)
    ensures sys.socket.Failure? ==> calls == [SocketCall]
    ensures r.Failure? <==> SetupError(parsed, sys).Some?
    ensures r.Failure? ==> r.error == SetupError(parsed, sys).value
  {
    var setup;
    setup, calls := OpenSocket(address, port, parsed, sys);
    match setup {
      case Failure(e) =>
        r := Failure(e);
      case Success((fd, sa)) =>
        var l := new Listener(fd, sa);
        r := Success(l);
    }
  }
}
