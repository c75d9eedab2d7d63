/**
 The destination-identity maps of the UDP packet sender: which local (Fake-IP) address
 a reply must appear to come from. Exact mappings come from locally resolved targets,
 domain mappings from targets the proxy resolves, learned ones from attributed replies.
 */
module UdpMapping {
  import opened NetTypes
  import opened PacketScheduler

  const MAX_LEARNED := 512

  /** Either a domain or an address, never both. */
  datatype Socksaddr = NoDest | ToIp(addr: Addr, port: nat) | ToFqdn(name: string, port: nat)

  /** `hostAddr` is the address `host` spells, if it is a literal; `ipText` spells `dstIP`. */
  datatype Metadata = Metadata(host: string, hostAddr: Addr, dstIP: Addr, ipText: string, dstPort: nat) {
    function Text(): string {
      if host != "" then host else if dstIP.IsValid() then ipText else "<nil>"
    }
  }

  datatype Remote = Remote(origin: Addr, ports: map<nat, nat>)

  datatype Maps = Maps(
    prepared: map<Key, Socksaddr>,
    targets: map<string, Socksaddr>,
    exact: map<Addr, Addr>,
    domains: map<string, Remote>,
    learned: map<Addr, Addr>,
    sendSeq: nat)

  const NO_MAPS := Maps(map[], map[], map[], map[], map[], 0)

  function Destination(m: Metadata): Socksaddr {
    if m.dstIP.IsValid() then ToIp(m.dstIP.Unmap(), m.dstPort)
    else if m.host != "" then
      if m.hostAddr.IsValid() then ToIp(m.hostAddr.Unmap(), m.dstPort) else ToFqdn(m.host, m.dstPort)
    else NoDest
  }

  function Canonical(domain: string): string {
    var d := Lower(domain);
    if d != "" && d[|d| - 1] == '.' then d[..|d| - 1] else d
  }

  // ---------------------------------------------------------------- the sections

  function Forget(learned: map<Addr, Addr>, origin: Addr): map<Addr, Addr> {
    if !origin.IsValid() then learned else map a | a in learned && learned[a] != origin :: learned[a]
  }

  /** What is still learned once a domain has an origin. */
  function Superseded(domains: map<string, Remote>, learned: map<Addr, Addr>, domain: string, origin: Addr)
    : map<Addr, Addr>
  {
    if domain in domains && domains[domain].origin != origin then Forget(learned, domains[domain].origin) else learned
  }

  function PortsOf(domains: map<string, Remote>, domain: string): map<nat, nat> {
    if domain in domains then domains[domain].ports else map[]
  }

  /** A mapping call for a domain: adopts the origin and stamps the requested port. */
  function MapDomain(s: Maps, domain: string, origin: Addr, port: nat): Maps {
    var ports := PortsOf(s.domains, domain);
    var learned := Superseded(s.domains, s.learned, domain, origin);
    if port == 0 then s.(learned := learned, domains := s.domains[domain := Remote(origin, ports)])
    else s.(learned := learned, sendSeq := s.sendSeq + 1,
            domains := s.domains[domain := Remote(origin, ports[port := s.sendSeq + 1])])
  }

  function MapExact(s: Maps, target: Addr, origin: Addr): Maps {
    s.(exact := if target in s.exact then s.exact else s.exact[target := origin],
       learned := s.learned - {target})
  }

  /** The first valid target of a packet key, and of an origin as it is spelled, is kept. */
  function Prepare(s: Maps, key: Key, text: string, target: Socksaddr): Maps {
    if target.NoDest? then s
    else s.(prepared := if key in s.prepared then s.prepared else s.prepared[key := target],
            targets := if text in s.targets then s.targets else s.targets[text := target])
  }

  function AddMapping(s: Maps, origin: Metadata, m: Metadata): Maps {
    var target := Destination(m);
    var u := Prepare(s, PacketKey(origin.host, origin.dstIP, origin.dstPort), origin.Text(), target);
    var from := origin.dstIP.Unmap();
    if !from.IsValid() || target.NoDest? then u
    else if target.ToFqdn? then MapDomain(u, Canonical(target.name), from, m.dstPort)
    else MapExact(u, target.addr.Unmap(), from)
  }

  predicate Requested(domains: map<string, Remote>, port: nat, d: string) {
    d in domains && port in domains[d].ports
  }

  /** `d` asked for `port` most recently. */
  ghost predicate Newest(domains: map<string, Remote>, port: nat, d: string) {
    && Requested(domains, port, d)
    && forall e :: Requested(domains, port, e) ==> domains[e].ports[port] <= domains[d].ports[port]
  }

  ghost function Attribution(domains: map<string, Remote>, port: nat): Addr {
    if port != 0 && exists d :: Newest(domains, port, d) then
      var d :| Newest(domains, port, d);
      domains[d].origin
    else NoAddr
  }

  /** Restoring the address of an IP reply in one atomic step. */
  ghost function Restore(s: Maps, source: Addr, port: nat): (Maps, Addr) {
    if source in s.exact then (s, s.exact[source])
    else if source in s.learned then (s, s.learned[source])
    else
      var origin := Attribution(s.domains, port);
      if origin.IsValid() && |s.learned| < MAX_LEARNED
      then (s.(learned := s.learned[source := origin]), origin)
      else (s, source)
  }

  /** What the read-locked phase can already answer. */
  ghost function Peek(s: Maps, source: Addr, port: nat): Option<Addr> {
    if source in s.exact then Some(s.exact[source])
    else if source in s.learned then Some(s.learned[source])
    else if Attribution(s.domains, port).IsValid() && |s.learned| < MAX_LEARNED then None
    else Some(source)
  }

  /** The reply of a domain is restored to the domain's current origin. */
  function RestoreDomain(s: Maps, name: string): Addr {
    if Canonical(name) in s.domains then s.domains[Canonical(name)].origin else NoAddr
  }

  // ---------------------------------------------------------------- invariant

  function Stamp(domains: map<string, Remote>, d: string, port: nat): nat {
    if Requested(domains, port, d) then domains[d].ports[port] else 0
  }

  /** Every request has its own number, across all domains and ports. */
  ghost predicate StampsDistinct(domains: map<string, Remote>, sendSeq: nat) {
    && (forall d, p :: Requested(domains, p, d) ==> 0 < Stamp(domains, d, p) <= sendSeq)
    && (forall d, p, e, q ::
          Stamp(domains, d, p) == Stamp(domains, e, q) && Requested(domains, p, d) ==> d == e && p == q)
  }

  ghost predicate IsOrigin(domains: map<string, Remote>, a: Addr) {
    exists d :: d in domains && domains[d].origin == a
  }

  ghost predicate Identities(exact: map<Addr, Addr>, domains: map<string, Remote>, learned: map<Addr, Addr>) {
    && exact.Keys !! learned.Keys
    && |learned| <= MAX_LEARNED
    && (forall d :: d in domains ==> domains[d].origin.IsValid())
    && (forall a :: a in exact ==> exact[a].IsValid())
    && (forall a :: a in learned ==> IsOrigin(domains, learned[a]))
  }

  ghost predicate Inv(s: Maps) {
    StampsDistinct(s.domains, s.sendSeq) && Identities(s.exact, s.domains, s.learned)
  }

  ghost predicate Grows(s: Maps, u: Maps) {
    && (forall a :: a in s.exact ==> a in u.exact && u.exact[a] == s.exact[a])
    && (forall k :: k in s.prepared ==> k in u.prepared && u.prepared[k] == s.prepared[k])
    && (forall t :: t in s.targets ==> t in u.targets && u.targets[t] == s.targets[t])
  }

  lemma MapDomainStamp(s: Maps, domain: string, origin: Addr, port: nat, d: string, p: nat)
    ensures var u := MapDomain(s, domain, origin, port);
      var hit := d == domain && p == port && port != 0;
      && (Requested(u.domains, p, d) <==> hit || Requested(s.domains, p, d))
      && Stamp(u.domains, d, p) == if hit then s.sendSeq + 1 else Stamp(s.domains, d, p)
  {
    var ports := PortsOf(s.domains, domain);
    var remote := Remote(origin, if port == 0 then ports else ports[port := s.sendSeq + 1]);
    assert MapDomain(s, domain, origin, port).domains == s.domains[domain := remote];
  }

  lemma MapDomainStamps(s: Maps, domain: string, origin: Addr, port: nat)
    requires StampsDistinct(s.domains, s.sendSeq)
    ensures var u := MapDomain(s, domain, origin, port); StampsDistinct(u.domains, u.sendSeq)
  {
    var u := MapDomain(s, domain, origin, port);
    forall d, p ensures Requested(u.domains, p, d) ==> 0 < Stamp(u.domains, d, p) <= u.sendSeq {
      MapDomainStamp(s, domain, origin, port, d, p);
    }
    forall d, p, e, q | Stamp(u.domains, d, p) == Stamp(u.domains, e, q) && Requested(u.domains, p, d)
      ensures d == e && p == q
    {
      MapDomainStamp(s, domain, origin, port, d, p);
      MapDomainStamp(s, domain, origin, port, e, q);
    }
  }

  lemma OriginSurvives(domains: map<string, Remote>, domain: string, r: Remote, a: Addr)
    requires IsOrigin(domains, a)
    requires domain in domains ==> domains[domain].origin == r.origin || domains[domain].origin != a
    ensures IsOrigin(domains[domain := r], a)
  {
    var d :| d in domains && domains[d].origin == a;
    assert d in domains[domain := r] && domains[domain := r][d].origin == a;
  }

  /** Fewer learned entries, each still pointing at a current origin. */
  lemma IdentitiesShrink(exact: map<Addr, Addr>, domains: map<string, Remote>, learned: map<Addr, Addr>,
                         less: map<Addr, Addr>)
    requires exact.Keys !! learned.Keys && |learned| <= MAX_LEARNED && less.Keys <= learned.Keys
    requires forall d :: d in domains ==> domains[d].origin.IsValid()
    requires forall a :: a in exact ==> exact[a].IsValid()
    requires forall a :: a in less ==> IsOrigin(domains, less[a])
    ensures Identities(exact, domains, less)
  {
    SubsetSize(less.Keys, learned.Keys);
  }

  /** A recycled origin never keeps what was learned for the superseded one. */
  lemma AdoptKeeps(exact: map<Addr, Addr>, domains: map<string, Remote>, learned: map<Addr, Addr>,
                   domain: string, r: Remote)
    requires Identities(exact, domains, learned) && r.origin.IsValid()
    ensures Identities(exact, domains[domain := r], Superseded(domains, learned, domain, r.origin))
  {
    var less := Superseded(domains, learned, domain, r.origin);
    forall a | a in less ensures a in learned && IsOrigin(domains[domain := r], less[a]) {
      OriginSurvives(domains, domain, r, learned[a]);
    }
    IdentitiesShrink(exact, domains[domain := r], learned, less);
  }

  lemma MapDomainIdentities(s: Maps, domain: string, origin: Addr, port: nat)
    requires Identities(s.exact, s.domains, s.learned) && origin.IsValid()
    ensures var u := MapDomain(s, domain, origin, port); Identities(u.exact, u.domains, u.learned)
  {
    var ports := PortsOf(s.domains, domain);
    AdoptKeeps(s.exact, s.domains, s.learned, domain,
               Remote(origin, if port == 0 then ports else ports[port := s.sendSeq + 1]));
  }

  lemma MapExactIdentities(s: Maps, target: Addr, origin: Addr)
    requires Identities(s.exact, s.domains, s.learned) && origin.IsValid()
    ensures var u := MapExact(s, target, origin); Identities(u.exact, u.domains, u.learned)
  {
    var less := s.learned - {target};
    IdentitiesShrink(s.exact, s.domains, s.learned, less);
    ExactMore(s.exact, s.domains, less, target, origin);
  }

  lemma ExactMore(exact: map<Addr, Addr>, domains: map<string, Remote>, learned: map<Addr, Addr>,
                  target: Addr, origin: Addr)
    requires Identities(exact, domains, learned) && origin.IsValid() && target !in learned
    ensures Identities(exact[target := origin], domains, learned)
  {
    assert exact[target := origin].Keys == exact.Keys + {target};
  }

  lemma AddMappingKeeps(s: Maps, origin: Metadata, m: Metadata)
    requires Inv(s)
    ensures var u := AddMapping(s, origin, m); Inv(u) && Grows(s, u)
  {
    var target := Destination(m);
    var p := Prepare(s, PacketKey(origin.host, origin.dstIP, origin.dstPort), origin.Text(), target);
    var from := origin.dstIP.Unmap();
    if from.IsValid() && target.ToFqdn? {
      MapDomainKeeps(p, Canonical(target.name), from, m.dstPort);
    } else if from.IsValid() && target.ToIp? {
      MapExactKeeps(p, target.addr.Unmap(), from);
    } else {
      SameIsKept(p);
    }
    GrowsTransitive(s, p, AddMapping(s, origin, m));
  }

  /** A mapping with a destination prepares the key of the packets it is for, and no other: the
      scheduler's step of the same name. */
  lemma AddMappingPrepares(s: Maps, origin: Metadata, m: Metadata)
    ensures var key := PacketKey(origin.host, origin.dstIP, origin.dstPort);
      AddMapping(s, origin, m).prepared.Keys == s.prepared.Keys + (if Destination(m).NoDest? then {} else {key})
  {
    var key := PacketKey(origin.host, origin.dstIP, origin.dstPort);
    KeysWith(s.prepared, key, Destination(m));
  }

  lemma KeysWith(prepared: map<Key, Socksaddr>, key: Key, target: Socksaddr)
    ensures prepared[key := target].Keys == prepared.Keys + {key}
    ensures key in prepared ==> prepared.Keys == prepared.Keys + {key}
  {
  }

  lemma MapDomainKeeps(s: Maps, domain: string, origin: Addr, port: nat)
    requires Inv(s) && origin.IsValid()
    ensures var u := MapDomain(s, domain, origin, port); Inv(u) && Grows(s, u)
  {
    MapDomainStamps(s, domain, origin, port);
    MapDomainIdentities(s, domain, origin, port);
  }

  lemma MapExactKeeps(s: Maps, target: Addr, origin: Addr)
    requires Inv(s) && origin.IsValid()
    ensures var u := MapExact(s, target, origin); Inv(u) && Grows(s, u)
  {
    MapExactIdentities(s, target, origin);
  }

  lemma SameIsKept(s: Maps)
    ensures Grows(s, s)
  {
  }

  lemma GrowsTransitive(s: Maps, t: Maps, u: Maps)
    requires Grows(s, t) && Grows(t, u)
    ensures Grows(s, u)
  {
  }

  lemma LearnKeeps(s: Maps, source: Addr, origin: Addr)
    requires Identities(s.exact, s.domains, s.learned) && IsOrigin(s.domains, origin)
    requires source !in s.exact && source !in s.learned && |s.learned| < MAX_LEARNED
    ensures Identities(s.exact, s.domains, s.learned[source := origin])
  {
  }

  lemma AttributionIsOrigin(domains: map<string, Remote>, port: nat)
    requires Attribution(domains, port).IsValid()
    ensures IsOrigin(domains, Attribution(domains, port))
  {
  }

  lemma RestoreKeeps(s: Maps, source: Addr, port: nat)
    requires Inv(s)
    ensures var u := Restore(s, source, port).0; Inv(u) && Grows(s, u) && u == s.(learned := u.learned)
  {
    var (u, origin) := Restore(s, source, port);
    if u != s {
      AttributionIsOrigin(s.domains, port);
      LearnKeeps(s, source, origin);
    }
  }
}
