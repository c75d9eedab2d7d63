/** Values shared by the models: bytes, addresses, names, and a fact about sets. */
module NetTypes {

  newtype byte = x: int | 0 <= x < 256

  datatype Option<+T> = None | Some(value: T)

  /** An IP address as `net/netip` sees it: absent, IPv4, IPv6, or IPv4 mapped into IPv6. */
  datatype Addr = NoAddr | V4(bits: nat) | V6(bits: nat) | V4In6(bits: nat) {
    predicate IsValid() {
      !NoAddr?
    }

    predicate Is4() {
      V4?
    }

    function Unmap(): Addr {
      if V4In6? then V4(bits) else this
    }
  }

  /** An address as Go's `net.IP` holds it: 4 or 16 bytes. */
  type NetIp = seq<byte>

  predicate MapsV4(a: NetIp) {
    |a| == 16 && a[..12] == [0, 0, 0, 0, 0, 0, 0, 0, 0, 0, 255, 255]
  }

  datatype AddrPort = AddrPort(addr: Addr, port: nat) {
    predicate IsValid() {
      addr.IsValid()
    }

    function Unmap(): AddrPort {
      AddrPort(addr.Unmap(), port)
    }
  }

  const UNSET := AddrPort(NoAddr, 0)

  /** The first place of an address, mapped or not. */
  predicate FirstSeen(ips: seq<Addr>, k: int) {
    0 <= k < |ips| && forall j :: 0 <= j < k ==> ips[j].Unmap() != ips[k].Unmap()
  }

  /** The addresses unmapped, each at its first place and in the order of those; `valid` leaves out
      what is none. */
  ghost predicate AtFirstPlaces(ips: seq<Addr>, valid: bool, r: seq<Addr>, at: seq<nat>) {
    && |at| == |r| && (forall i, j :: 0 <= i < j < |at| ==> at[i] < at[j])
    && (forall k :: k in at <==> FirstSeen(ips, k) && (valid ==> ips[k].IsValid()))
    && forall i :: 0 <= i < |at| ==> at[i] < |ips| && r[i] == ips[at[i]].Unmap()
  }

  /** One address more, new or seen before. */
  lemma OneAddressMore(ips: seq<Addr>, valid: bool, r: seq<Addr>, at: seq<nat>, ip: Addr)
    requires AtFirstPlaces(ips, valid, r, at)
    ensures if (valid ==> ip.IsValid()) && ip.Unmap() !in r
            then AtFirstPlaces(ips + [ip], valid, r + [ip.Unmap()], at + [|ips|])
            else AtFirstPlaces(ips + [ip], valid, r, at)
  {
    var more, n := ips + [ip], |ips|;
    assert forall j :: 0 <= j < n ==> more[j] == ips[j];
    assert more[n] == ip;
    forall k ensures k != n ==> (FirstSeen(more, k) <==> FirstSeen(ips, k)) {
    }
    if valid ==> ip.IsValid() {
      SeenIffListed(ips, valid, r, at, ip);
    }
    forall k ensures k in at + [n] <==> k in at || k == n {
    }
  }

  lemma OnePlaceMore(front: seq<Addr>, ip: Addr, valid: bool, sofar: seq<Addr>, before: seq<nat>, all: seq<Addr>)
    returns (at: seq<nat>)
    requires AtFirstPlaces(front, valid, sofar, before)
    requires all == if (valid ==> ip.IsValid()) && ip.Unmap() !in sofar then sofar + [ip.Unmap()] else sofar
    ensures AtFirstPlaces(front + [ip], valid, all, at)
  {
    OneAddressMore(front, valid, sofar, before, ip);
    at := if (valid ==> ip.IsValid()) && ip.Unmap() !in sofar then before + [|front|] else before;
  }

  lemma SeenIffListed(ips: seq<Addr>, valid: bool, r: seq<Addr>, at: seq<nat>, ip: Addr)
    requires AtFirstPlaces(ips, valid, r, at) && (valid ==> ip.IsValid())
    ensures FirstSeen(ips + [ip], |ips|) <==> ip.Unmap() !in r
  {
    var more := ips + [ip];
    if ip.Unmap() in r {
      var i :| 0 <= i < |r| && r[i] == ip.Unmap();
      assert more[at[i]].Unmap() == more[|ips|].Unmap();
    }
    if j :| 0 <= j < |ips| && ips[j].Unmap() == ip.Unmap() {
      var k := FirstPlace(ips, j);
      assert k in at;
      var i :| 0 <= i < |at| && at[i] == k;
      assert r[i] == ip.Unmap();
    }
  }

  lemma {:induction false} FirstPlace(ips: seq<Addr>, j: nat) returns (k: nat)
    requires j < |ips|
    ensures k <= j && ips[k].Unmap() == ips[j].Unmap() && FirstSeen(ips, k)
  {
    if FirstSeen(ips, j) {
      k := j;
    } else {
      var i :| 0 <= i < j && ips[i].Unmap() == ips[j].Unmap();
      k := FirstPlace(ips, i);
    }
  }

  // ASCII letters only.
  function LowerChar(c: char): char {
    if 'A' <= c <= 'Z' then (c as int + 32) as char else c
  }

  function Lower(s: string): string {
    seq(|s|, i requires 0 <= i < |s| => LowerChar(s[i]))
  }

  lemma {:induction false} SubsetSize<T>(a: set<T>, b: set<T>)
    requires a <= b
    ensures |a| <= |b|
  {
    if a != {} {
      var x :| x in a;
      SubsetSize(a - {x}, b - {x});
    }
  }
}
