/** Network values shared by the listener, the connections and the servers:
    bytes, IPv4 socket addresses, TCP addresses and their textual forms. */
module Net {

  datatype Option<+T> = None | Some(value: T)

  datatype Result<+T, +E> = Success(value: T) | Failure(error: E)

  newtype byte = x: int | 0 <= x < 256

  /** The text of an operating-system error (what `%v` prints for it). */
  type Errno = string

  type Bytes4 = b: seq<byte> | |b| == 4 witness [0, 0, 0, 0]

  /** A parsed IP address as `net.ParseIP` yields it: 4 or 16 bytes. */
  datatype IP = IP(bytes: seq<byte>)

  /** A socket address as the kernel reports it; only the IPv4 form is
      inspected by the listener, every other family is `OtherFamily`. */
  datatype Sockaddr = Inet4(port: int, addr: Bytes4) | OtherFamily

  /** A TCP endpoint address (`net.TCPAddr` built from four IPv4 bytes). */
  datatype Addr = TcpAddr(ip: Bytes4, port: int)

  /** The 12-byte prefix that marks an IPv4 address in 16-byte form. */
  const V4InV6Prefix: seq<byte> := [0, 0, 0, 0, 0, 0, 0, 0, 0, 0, 0xff, 0xff]

  /** `ip.To4()`: the 4-byte form of an address, or nothing when it has none. */
  function To4(ip: IP): (r: Option<seq<byte>>)
    ensures r.Some? ==> |r.value| == 4
    ensures r.Some? <==> |ip.bytes| == 4 || (|ip.bytes| == 16 && ip.bytes[..12] == V4InV6Prefix)
    ensures r.Some? ==> r.value == ip.bytes[|ip.bytes| - 4..]
  {
    if |ip.bytes| == 4 then Some(ip.bytes)
    else if |ip.bytes| == 16 && ip.bytes[..12] == V4InV6Prefix then Some(ip.bytes[12..])
    else None
  }

  /** The four address bytes of a `SockaddrInet4` after `copy(sa.Addr[:], ip.To4())`:
      a nil slice copies nothing, so the zero-initialised array stays all zero. */
  function BoundBytes(ip: IP): (b: Bytes4)
    ensures To4(ip).Some? ==> b == To4(ip).value
    ensures To4(ip).None? ==> b == [0, 0, 0, 0]
  {
    match To4(ip)
    case Some(v4) => v4
    case None => [0, 0, 0, 0]
  }

  /** The characters `net.ParseIP` can accept at all: hexadecimal digits,
      dots and colons. A string with any other character is not an IP literal. */
  predicate IsIPChar(c: char)
  {
    ('0' <= c <= '9') || ('a' <= c <= 'f') || ('A' <= c <= 'F') || c == '.' || c == ':'
  }

  predicate MayBeIPLiteral(s: string)
  {
    forall i | 0 <= i < |s| :: IsIPChar(s[i])
  }

  /** Converts an IPv4 socket address into a TCP address; any other family
      gives no address (the nil `net.Addr`). */
  function SockaddrToAddr(sa: Sockaddr): (a: Option<Addr>)
    ensures a.Some? <==> sa.Inet4?
    ensures a.Some? ==> a.value.ip == sa.addr && a.value.port == sa.port
  {
    match sa
    case Inet4(port, addr) => Some(TcpAddr(addr, port))
    case OtherFamily => None
  }

  // Decimal text of integers, as `%d` and `strconv.Itoa` print it.

  predicate IsDigit(c: char) { '0' <= c <= '9' }

  predicate AllDigits(s: string) { forall i | 0 <= i < |s| :: IsDigit(s[i]) }

  function DigitChar(d: nat): (c: char)
    requires d < 10
    ensures IsDigit(c) && (c as int) - ('0' as int) == d
  {
    (('0' as int) + d) as char
  }

  function NatToString(n: nat): (s: string)
    ensures 1 <= |s| && AllDigits(s)
    ensures |s| > 1 ==> s[0] != '0'
  {
    if n < 10 then [DigitChar(n)] else NatToString(n / 10) + [DigitChar(n % 10)]
  }

  function IntToString(i: int): (s: string)
    ensures 1 <= |s|
    ensures i < 0 <==> s[0] == '-'
  {
    if i < 0 then "-" + NatToString(-i) else NatToString(i)
  }

  /** Reads back a string of decimal digits. */
  function ParseNat(s: string): (n: nat)
    requires AllDigits(s)
  {
    if s == [] then 0 else 10 * ParseNat(s[..|s| - 1]) + ((s[|s| - 1] as int) - ('0' as int))
  }

  /** The decimal text of a number reads back as that number. */
  lemma {:induction false} ParseNatToString(n: nat)
    ensures ParseNat(NatToString(n)) == n
  {
    if n >= 10 {
      var s := NatToString(n);
      assert s[..|s| - 1] == NatToString(n / 10);
      ParseNatToString(n / 10);
    }
  }

  /** Distinct numbers have distinct decimal texts. */
  lemma NatToStringInjective(m: nat, n: nat)
    ensures NatToString(m) == NatToString(n) ==> m == n
  {
    ParseNatToString(m);
    ParseNatToString(n);
  }

  /** `TCPAddr.String()` for an IPv4 address: dotted quad, a colon and the port. */
  function AddrString(a: Addr): (s: string)
  {
    NatToString(a.ip[0] as nat) + ("." + (NatToString(a.ip[1] as nat) + ("." + (
    NatToString(a.ip[2] as nat) + ("." + (NatToString(a.ip[3] as nat) + (":" + IntToString(a.port))))))))
  }

  /** Position of the first `c` in `s`, or `|s|` when there is none. */
  function IndexOf(s: string, c: char): (k: nat)
    ensures k <= |s|
  {
    if s == [] || s[0] == c then 0 else 1 + IndexOf(s[1..], c)
  }

  lemma {:induction false} IndexOfSeparator(x: string, c: char, y: string)
    requires c !in x
    ensures IndexOf(x + ([c] + y), c) == |x|
  {
    if x != [] {
      assert (x + ([c] + y))[1..] == x[1..] + ([c] + y);
      IndexOfSeparator(x[1..], c, y);
    }
  }

  /** Cutting at the first occurrence of a separator that neither head contains is unique. */
  lemma SplitAtSeparator(x: string, y: string, x': string, y': string, c: char)
    requires c !in x && c !in x'
    requires x + ([c] + y) == x' + ([c] + y')
    ensures x == x' && y == y'
  {
    var s := x + ([c] + y);
    IndexOfSeparator(x, c, y);
    IndexOfSeparator(x', c, y');
    assert x == s[..|x|] == x';
    assert y == s[|x| + 1..] == y';
  }

  lemma IntToStringInjective(i: int, j: int)
    ensures IntToString(i) == IntToString(j) ==> i == j
  {
    if IntToString(i) == IntToString(j) {
      if i < 0 {
        assert NatToString(-i) == IntToString(i)[1..] == IntToString(j)[1..] == NatToString(-j);
        NatToStringInjective(-i, -j);
      } else {
        NatToStringInjective(i, j);
      }
    }
  }

  lemma DigitsLackSeparators(n: nat)
    ensures '.' !in NatToString(n) && ':' !in NatToString(n)
  {
  }

  /** Two IPv4 endpoints have the same textual key only if they are the same
      endpoint, so the registry keys of distinct peers never collide. */
  lemma AddrStringInjective(a: Addr, b: Addr)
    ensures AddrString(a) == AddrString(b) ==> a == b
  {
    if AddrString(a) == AddrString(b) {
      var a0, a1, a2, a3 := a.ip[0] as nat, a.ip[1] as nat, a.ip[2] as nat, a.ip[3] as nat;
      var b0, b1, b2, b3 := b.ip[0] as nat, b.ip[1] as nat, b.ip[2] as nat, b.ip[3] as nat;
      var pa, pb := IntToString(a.port), IntToString(b.port);
      DigitsLackSeparators(a0); DigitsLackSeparators(a1); DigitsLackSeparators(a2); DigitsLackSeparators(a3);
      DigitsLackSeparators(b0); DigitsLackSeparators(b1); DigitsLackSeparators(b2); DigitsLackSeparators(b3);
      var ra3, rb3 := ":" + pa, ":" + pb;
      var ra2, rb2 := NatToString(a3) + ra3, NatToString(b3) + rb3;
      var ra1, rb1 := NatToString(a2) + ("." + ra2), NatToString(b2) + ("." + rb2);
      var ra0, rb0 := NatToString(a1) + ("." + ra1), NatToString(b1) + ("." + rb1);
      SplitAtSeparator(NatToString(a0), ra0, NatToString(b0), rb0, '.');
      SplitAtSeparator(NatToString(a1), ra1, NatToString(b1), rb1, '.');
      SplitAtSeparator(NatToString(a2), ra2, NatToString(b2), rb2, '.');
      SplitAtSeparator(NatToString(a3), pa, NatToString(b3), pb, ':');
      NatToStringInjective(a0, b0);
      NatToStringInjective(a1, b1);
      NatToStringInjective(a2, b2);
      NatToStringInjective(a3, b3);
      IntToStringInjective(a.port, b.port);
      assert a.ip == [a.ip[0], a.ip[1], a.ip[2], a.ip[3]];
      assert b.ip == [b.ip[0], b.ip[1], b.ip[2], b.ip[3]];
    }
  }
}
