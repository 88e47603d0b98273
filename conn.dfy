/** `CustomConn`: a connection over one accepted socket descriptor, read and
    written with raw syscalls. The syscalls themselves are outside the model:
    their outcomes are parameters. */
module RawConn {
  import opened Net

  /** What one `read(2)` or `write(2)` on the descriptor returned. */
  datatype IoOutcome = IoOutcome(n: int, err: Option<Errno>)

  class Conn {
    const fd: int
    const localAddr: Option<Addr>
    const remoteAddr: Option<Addr>
    var closed: bool
    /** How many times `close(2)` has been issued on `fd` through this connection. */
    ghost var releases: nat

    /** The descriptor has been released exactly when the connection is closed,
        and therefore never more than once. */
    ghost predicate Valid()
      reads this
    {
      releases == if closed then 1 else 0
    }

    /** `NewCustomConn`: the addresses are fixed here (they are constants of the
        object, so no method can change them) and the connection starts open. */
    constructor (fd: int, remoteAddr: Option<Addr>, localAddr: Option<Addr>)
      ensures Valid() && !closed && releases == 0
      ensures this.fd == fd && this.remoteAddr == remoteAddr && this.localAddr == localAddr
    {
      this.fd := fd;
      this.remoteAddr := remoteAddr;
      this.localAddr := localAddr;
      closed := false;
      releases := 0;
    }

    /** One `read(2)` on the descriptor, whatever `closed` says: the result is
        the syscall's, and no field changes. */
    method Read(sysRead: int -> IoOutcome) returns (n: int, err: Option<Errno>)
      ensures n == sysRead(fd).n && err == sysRead(fd).err
    {
      var outcome := sysRead(fd);
      n, err := outcome.n, outcome.err;
    }

    /** One `write(2)` on the descriptor, whatever `closed` says. */
    method Write(sysWrite: int -> IoOutcome) returns (n: int, err: Option<Errno>)
      ensures n == sysWrite(fd).n && err == sysWrite(fd).err
    {
      var outcome := sysWrite(fd);
      n, err := outcome.n, outcome.err;
    }

    /** The first call marks the connection closed and releases the descriptor,
        returning `close(2)`'s result `sys`; every later call returns nil and
        releases nothing. */
    method Close(sys: Option<Errno>) returns (err: Option<Errno>)
      requires Valid()
      modifies this
      ensures Valid() && closed
      ensures old(closed) ==> err == None && releases == old(releases)
      ensures !old(closed) ==> err == sys && releases == old(releases) + 1
    {
      if closed {
        return None;
      }
      closed := true;
      releases := releases + 1;
      err := sys;
    }

    function LocalAddr(): (a: Option<Addr>) { localAddr }

    function RemoteAddr(): (a: Option<Addr>) { remoteAddr }

    /** Deadlines are not supported: the call succeeds and changes nothing. */
    method SetDeadline(t: int) returns (err: Option<Errno>)
      ensures err == None
    {
      err := None;
    }

    method SetReadDeadline(t: int) returns (err: Option<Errno>)
      ensures err == None
    {
      err := None;
    }

    method SetWriteDeadline(t: int) returns (err: Option<Errno>)
      ensures err == None
    {
      err := None;
    }
  }

  /** However many times `Close` is called, the descriptor is released once. */
  method CloseRepeatedly(c: Conn, outcomes: seq<Option<Errno>>) returns (errs: seq<Option<Errno>>)
    requires c.Valid()
    modifies c
    ensures c.Valid() && c.releases <= 1
    ensures |errs| == |outcomes|
    ensures outcomes != [] ==> c.closed
    ensures forall i | 0 < i < |errs| :: errs[i] == None
    ensures outcomes != [] ==> errs[0] == (if old(c.closed) then None else outcomes[0])
  {
    errs := [];
    var i := 0;
    while i < |outcomes|
      invariant 0 <= i <= |outcomes| && |errs| == i
      invariant c.Valid()
      invariant i > 0 ==> c.closed
      invariant i == 0 ==> c.closed == old(c.closed)
      invariant forall j | 0 < j < i :: errs[j] == None
      invariant i > 0 ==> errs[0] == (if old(c.closed) then None else outcomes[0])
    {
      var e := c.Close(outcomes[i]);
      errs := errs + [e];
      i := i + 1;
    }
  }
}
