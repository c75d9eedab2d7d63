/** Printing and parsing of SOCKS addresses (section 5 of RFC 1928) as adapter/outbound/util.go and
    adapter/inbound/util.go do it. The parser computes its indices in bytes, which wrap. */
module SocksAddr {
  import opened NetTypes

  const IPV4: byte := 1
  const DOMAIN: byte := 3
  const IPV6: byte := 4
  const DOT: byte := 46

  type Port = p: nat | p < 0x1_0000

  /** A destination: a host name, an address of 4 or 16 bytes, and a port. */
  datatype Metadata = Metadata(host: seq<byte>, ip: Option<NetIp>, port: Port) {
    predicate Valid() { ip.Some? ==> |ip.value| == 4 || |ip.value| == 16 }

    /** A host name wins over an address; without either an empty name is sent. */
    predicate IsDomain() { host != [] || ip.None? }
  }

  function Wrapped(n: nat): byte { (n % 256) as byte }

  function PortBytes(p: Port): seq<byte> { [Wrapped(p / 256), Wrapped(p)] }

  /** serializesSocksAddr: the length of a host name is cut to one byte. */
  function Serialize(m: Metadata): seq<byte>
    requires m.Valid()
  {
    if m.IsDomain() then [DOMAIN, Wrapped(|m.host|)] + m.host + PortBytes(m.port)
    else [if |m.ip.value| == 4 then IPV4 else IPV6] + m.ip.value + PortBytes(m.port)
  }

  function TrimDots(s: seq<byte>): seq<byte> {
    if s != [] && s[|s| - 1] == DOT then TrimDots(s[..|s| - 1]) else s
  }

  function PortAt(t: seq<byte>, high: nat, low: nat): Option<Port> {
    if high < |t| && low < |t| then Some(t[high] as nat * 256 + t[low] as nat) else None
  }

  function Unmapped(ip: NetIp): NetIp { if MapsV4(ip) then ip[12..] else ip }

  function ParseIp(t: seq<byte>, size: nat): Option<Metadata> {
    var port := PortAt(t, 1 + size, 2 + size);
    if port.None? then None else Some(Metadata([], Some(Unmapped(t[1..1 + size])), port.value))
  }

  /** parseSocksAddr; None where an index or a slice is out of range. */
  function Parse(t: seq<byte>): Option<Metadata> {
    if t == [] then None
    else if t[0] == DOMAIN then
      if |t| < 2 then None
      else
        var end := Wrapped(2 + t[1] as nat) as nat;
        var port := PortAt(t, end, Wrapped(3 + t[1] as nat) as nat);
        if end < 2 || end > |t| || port.None? then None
        else Some(Metadata(TrimDots(t[2..end]), None, port.value))
    else if t[0] == IPV4 then ParseIp(t, 4)
    else if t[0] == IPV6 then ParseIp(t, 16)
    else Some(Metadata([], None, 0))
  }

  /** What survives of a destination: the name alone, or the address in its shortest form. */
  function Essence(m: Metadata): Metadata {
    if m.IsDomain() then m.(ip := None)
    else if MapsV4(m.ip.value) then m.(ip := Some(m.ip.value[12..]))
    else m
  }

  predicate TrailingDot(s: seq<byte>) { s != [] && s[|s| - 1] == DOT }

  /** Names of up to 252 bytes without a final dot; one byte more only where the byte that the
      wrapped index finds happens to be the low byte of the port. */
  predicate Survives(m: Metadata) {
    m.IsDomain() ==> !TrailingDot(m.host) && (|m.host| <= 252 || (|m.host| == 253 && m.port % 256 == DOMAIN as nat))
  }

  /** The form of section 5 of RFC 1928: a type, a name after its length or an address of fixed length,
      and the port in network order. */
  lemma PrintedForm(m: Metadata)
    requires m.Valid()
    ensures var t := Serialize(m);
      var body := if m.IsDomain() then [(|m.host| % 256) as byte] + m.host else m.ip.value;
      && |t| == |body| + 3 && t[1..1 + |body|] == body
      && t[0] == (if m.IsDomain() then 3 else if |body| == 4 then 1 else 4)
      && m.port == t[|t| - 2] as nat * 256 + t[|t| - 1] as nat
  {
    PortRoundTrip(m.port);
    var t := Serialize(m);
    var body := if m.IsDomain() then [(|m.host| % 256) as byte] + m.host else m.ip.value;
    assert t == [t[0]] + body + PortBytes(m.port);
  }

  lemma PortRoundTrip(p: Port)
    ensures PortBytes(p)[0] as nat * 256 + PortBytes(p)[1] as nat == p
  {
  }

  lemma {:induction false} TrimmedIs(s: seq<byte>)
    ensures TrimDots(s) <= s && (TrimDots(s) == s <==> !TrailingDot(s))
  {
    if TrailingDot(s) {
      TrimmedIs(s[..|s| - 1]);
    }
  }

  lemma IpRoundTrip(m: Metadata)
    requires m.Valid() && !m.IsDomain()
    ensures Parse(Serialize(m)) == Some(Essence(m))
  {
    var t := Serialize(m);
    var size := |m.ip.value|;
    assert t[1..1 + size] == m.ip.value;
    assert t[1 + size] == PortBytes(m.port)[0] && t[2 + size] == PortBytes(m.port)[1];
    PortRoundTrip(m.port);
  }

  /** Parsing a name of l bytes, where there is room for it and its port. */
  lemma ParsedName(t: seq<byte>, l: nat)
    requires |t| >= l + 4 && t[0] == DOMAIN && t[1] as nat == l
    ensures Parse(t) ==
      if l > 253 then None
      else Some(Metadata(TrimDots(t[2..2 + l]), None, t[2 + l] as nat * 256 + t[(3 + l) % 256] as nat))
  {
    if l <= 253 {
      assert Wrapped(2 + l) as nat == 2 + l;
    }
  }

  /** What parsing a printed name gives, for every length of name. */
  lemma ParsedDomain(m: Metadata)
    requires m.Valid() && m.IsDomain()
    ensures var l := |m.host| % 256; var t := Serialize(m);
      Parse(t) == if l > 253 then None
                  else Some(Metadata(TrimDots(m.host[..l]), None, t[2 + l] as nat * 256 + t[(3 + l) % 256] as nat))
  {
    var l := |m.host| % 256;
    var t := Serialize(m);
    ParsedName(t, l);
    assert t[2..2 + l] == m.host[..l];
  }

  /** The port a printed name of up to 253 bytes is parsed with. */
  lemma ParsedPort(m: Metadata)
    requires m.Valid() && m.IsDomain() && |m.host| <= 253
    ensures var l := |m.host|; var t := Serialize(m);
      t[2 + l] as nat * 256 + t[(3 + l) % 256] as nat == m.port <==> l <= 252 || m.port % 256 == DOMAIN as nat
  {
    var l := |m.host|;
    var t := Serialize(m);
    PortRoundTrip(m.port);
    assert t[2 + l] == PortBytes(m.port)[0] && t[3 + l] == PortBytes(m.port)[1];
    assert l == 253 ==> t[(3 + l) % 256] == t[0];
  }

  /** A name of up to 253 bytes is parsed whole, with the port it was printed with or another. */
  lemma ShortParsed(m: Metadata, t: seq<byte>) returns (port: Port)
    requires m.Valid() && m.IsDomain() && |m.host| <= 253 && t == Serialize(m)
    ensures Parse(t) == Some(Metadata(TrimDots(m.host), None, port))
    ensures port == m.port <==> |m.host| <= 252 || m.port % 256 == DOMAIN as nat
  {
    var l := |m.host|;
    assert l % 256 == l && m.host[..l] == m.host;
    ParsedDomain(m);
    ParsedPort(m);
    port := Parse(t).value.port;
  }

  lemma ShortRoundTrip(m: Metadata)
    requires m.Valid() && m.IsDomain() && |m.host| <= 253
    ensures Parse(Serialize(m)) == Some(Essence(m)) <==> Survives(m)
  {
    var t := Serialize(m);
    var port := ShortParsed(m, t);
    NameAndPort(m, Parse(t), port);
  }

  lemma NameAndPort(m: Metadata, parsed: Option<Metadata>, port: Port)
    requires m.IsDomain() && |m.host| <= 253 && parsed == Some(Metadata(TrimDots(m.host), None, port))
    requires port == m.port <==> |m.host| <= 252 || m.port % 256 == DOMAIN as nat
    ensures parsed == Some(Essence(m)) <==> Survives(m)
  {
    TrimmedIs(m.host);
  }

  lemma LongRoundTrip(m: Metadata)
    requires m.Valid() && m.IsDomain() && |m.host| > 253
    ensures Parse(Serialize(m)) != Some(Essence(m))
  {
    ParsedDomain(m);
    CutShort(m.host);
  }

  lemma DomainRoundTrip(m: Metadata)
    requires m.Valid() && m.IsDomain()
    ensures Parse(Serialize(m)) == Some(Essence(m)) <==> Survives(m)
  {
    if |m.host| <= 253 {
      ShortRoundTrip(m);
    } else {
      LongRoundTrip(m);
    }
  }

  /** A longer name is cut, or not read at all. */
  lemma CutShort(host: seq<byte>)
    requires |host| > 253
    ensures |host| % 256 <= 253 ==> TrimDots(host[..|host| % 256]) != host
  {
    TrimmedIs(host[..|host| % 256]);
  }

  /** Parsing what was printed gives the destination back exactly when it can survive. */
  lemma RoundTrip(m: Metadata)
    requires m.Valid()
    ensures Parse(Serialize(m)) == Some(Essence(m)) <==> Survives(m)
  {
    if m.IsDomain() {
      DomainRoundTrip(m);
    } else {
      IpRoundTrip(m);
    }
  }

  /** The printed forms the parser cannot index: names two or one byte short of a multiple of 256. */
  lemma PrintedButUnreadable(m: Metadata)
    requires m.Valid()
    ensures Parse(Serialize(m)).None? <==> m.IsDomain() && |m.host| % 256 >= 254
  {
    if m.IsDomain() {
      ParsedDomain(m);
    } else {
      IpRoundTrip(m);
    }
  }
}
