/**
 The identity maps over whole histories of mapping calls and restored replies.
 */
module UdpMappingRuns {
  import opened NetTypes
  import PacketScheduler
  import opened UdpMapping

  datatype Op = Map(origin: Metadata, m: Metadata) | RestoreFrom(source: Addr, port: nat)

  ghost function Apply(s: Maps, op: Op): Maps {
    match op
    case Map(origin, m) => AddMapping(s, origin, m)
    case RestoreFrom(source, port) => Restore(s, source, port).0
  }

  ghost function Run(ops: seq<Op>): Maps {
    if ops == [] then NO_MAPS else Apply(Run(ops[..|ops| - 1]), ops[|ops| - 1])
  }

  lemma {:induction false} RunKeeps(ops: seq<Op>)
    ensures Inv(Run(ops))
  {
    if ops != [] {
      var front := ops[..|ops| - 1];
      RunKeeps(front);
      match ops[|ops| - 1]
      case Map(origin, m) => AddMappingKeeps(Run(front), origin, m);
      case RestoreFrom(source, port) => RestoreKeeps(Run(front), source, port);
    }
  }

  // ---------------------------------------------------------------- the history's own answer

  /** A mapping call with a domain target and a valid origin address. */
  datatype DomainCall = DomainCall(domain: string, origin: Addr, port: nat)

  function AsDomainCall(op: Op): Option<DomainCall> {
    match op
    case Map(origin, m) =>
      if !m.dstIP.IsValid() && m.host != "" && !m.hostAddr.IsValid() && origin.dstIP.IsValid()
      then Some(DomainCall(Canonical(m.host), origin.dstIP.Unmap(), m.dstPort)) else None
    case RestoreFrom(_, _) => None
  }

  /** The origin a domain was last mapped with. */
  function CurrentOrigin(ops: seq<Op>, d: string): Addr {
    if ops == [] then NoAddr
    else
      var c := AsDomainCall(ops[|ops| - 1]);
      if c.Some? && c.value.domain == d then c.value.origin else CurrentOrigin(ops[..|ops| - 1], d)
  }

  /** The domain of the last mapping call for a port. */
  function LastDomain(ops: seq<Op>, port: nat): Option<string> {
    if ops == [] then None
    else
      var c := AsDomainCall(ops[|ops| - 1]);
      if c.Some? && c.value.port == port then Some(c.value.domain) else LastDomain(ops[..|ops| - 1], port)
  }

  function Stamped(ops: seq<Op>): nat {
    if ops == [] then 0
    else
      var c := AsDomainCall(ops[|ops| - 1]);
      Stamped(ops[..|ops| - 1]) + if c.Some? && c.value.port != 0 then 1 else 0
  }

  function LastStamp(ops: seq<Op>, d: string, port: nat): (n: nat)
    ensures n <= Stamped(ops)
  {
    if ops == [] || port == 0 then 0
    else
      var c := AsDomainCall(ops[|ops| - 1]);
      if c.Some? && c.value.port == port && c.value.domain == d then Stamped(ops)
      else LastStamp(ops[..|ops| - 1], d, port)
  }

  // ---------------------------------------------------------------- refinement

  ghost predicate Refines(s: Maps, ops: seq<Op>) {
    && s.sendSeq == Stamped(ops)
    && (forall d :: OriginRefines(s, ops, d))
    && (forall d, p :: StampRefines(s, ops, d, p))
  }

  predicate OriginRefines(s: Maps, ops: seq<Op>, d: string) {
    if d in s.domains then CurrentOrigin(ops, d) == s.domains[d].origin && s.domains[d].origin.IsValid()
    else CurrentOrigin(ops, d) == NoAddr
  }

  predicate StampRefines(s: Maps, ops: seq<Op>, d: string, p: nat) {
    (Requested(s.domains, p, d) <==> LastStamp(ops, d, p) != 0) && Stamp(s.domains, d, p) == LastStamp(ops, d, p)
  }

  lemma AddMappingDomains(s: Maps, op: Op)
    requires op.Map?
    ensures var u := Apply(s, op);
      match AsDomainCall(op)
      case None => u.domains == s.domains && u.sendSeq == s.sendSeq
      case Some(c) =>
        var p := s.(prepared := u.prepared, targets := u.targets);
        u == MapDomain(p, c.domain, c.origin, c.port) && p.domains == s.domains && p.sendSeq == s.sendSeq
  {
  }

  lemma RefinesMapped(s: Maps, u: Maps, front: seq<Op>, op: Op, c: DomainCall)
    requires Refines(s, front) && AsDomainCall(op) == Some(c) && c.origin.IsValid()
    requires var p := s.(prepared := u.prepared, targets := u.targets); u == MapDomain(p, c.domain, c.origin, c.port)
    ensures Refines(u, front + [op])
  {
    var ops := front + [op];
    assert ops[..|ops| - 1] == front && ops[|ops| - 1] == op;
    var p := s.(prepared := u.prepared, targets := u.targets);
    forall d, q ensures StampRefines(u, ops, d, q) {
      MapDomainStamp(p, c.domain, c.origin, c.port, d, q);
      StampedLast(s, u, front, op, c, d, q);
    }
    forall d ensures OriginRefines(u, ops, d) {
      assert OriginRefines(s, front, d);
    }
  }

  lemma StampedLast(s: Maps, u: Maps, front: seq<Op>, op: Op, c: DomainCall, d: string, q: nat)
    requires Refines(s, front) && AsDomainCall(op) == Some(c)
    requires var hit := d == c.domain && q == c.port && c.port != 0;
      && (Requested(u.domains, q, d) <==> hit || Requested(s.domains, q, d))
      && Stamp(u.domains, d, q) == if hit then s.sendSeq + 1 else Stamp(s.domains, d, q)
    ensures StampRefines(u, front + [op], d, q)
  {
    assert (front + [op])[..|front|] == front;
    assert StampRefines(s, front, d, q);
  }

  lemma RefinesIdle(s: Maps, u: Maps, front: seq<Op>, op: Op)
    requires Refines(s, front) && AsDomainCall(op) == None && u.domains == s.domains && u.sendSeq == s.sendSeq
    ensures Refines(u, front + [op])
  {
    var ops := front + [op];
    assert ops[..|ops| - 1] == front && ops[|ops| - 1] == op;
    forall d, p ensures StampRefines(u, ops, d, p) {
      assert StampRefines(s, front, d, p);
    }
    forall d ensures OriginRefines(u, ops, d) {
      assert OriginRefines(s, front, d);
    }
  }

  lemma {:induction false} RunRefines(ops: seq<Op>)
    ensures Refines(Run(ops), ops)
  {
    if ops == [] {
    } else {
      var front, op := ops[..|ops| - 1], ops[|ops| - 1];
      assert ops == front + [op];
      RunRefines(front);
      var s, u := Run(front), Run(ops);
      if op.Map? {
        AddMappingDomains(s, op);
        if AsDomainCall(op).Some? {
          RefinesMapped(s, u, front, op, AsDomainCall(op).value);
        } else {
          RefinesIdle(s, u, front, op);
        }
      } else {
        RefinesIdle(s, u, front, op);
      }
    }
  }

  lemma {:induction false} LastDomainHasNewestStamp(ops: seq<Op>, port: nat, e: string)
    requires port != 0
    ensures match LastDomain(ops, port)
      case None => LastStamp(ops, e, port) == 0
      case Some(d) => 0 < LastStamp(ops, d, port) && (e != d ==> LastStamp(ops, e, port) < LastStamp(ops, d, port))
  {
    if ops != [] {
      LastDomainHasNewestStamp(ops[..|ops| - 1], port, e);
    }
  }

  /** For every history, a reply is attributed by port to the current origin of the domain in
      the last mapping call for that port; map iteration order plays no part. */
  lemma AttributedToLastRequest(ops: seq<Op>, port: nat)
    requires port != 0
    ensures Attribution(Run(ops).domains, port) ==
      match LastDomain(ops, port)
      case None => NoAddr
      case Some(d) => CurrentOrigin(ops, d)
  {
    RunRefines(ops);
    var s := Run(ops);
    forall e ensures Newest(s.domains, port, e) <==> LastDomain(ops, port) == Some(e) {
      LastIsNewest(s, ops, port, e);
    }
    if LastDomain(ops, port).Some? {
      var d := LastDomain(ops, port).value;
      assert Newest(s.domains, port, d) && OriginRefines(s, ops, d);
    }
  }

  lemma LastIsNewest(s: Maps, ops: seq<Op>, port: nat, e: string)
    requires port != 0 && Refines(s, ops)
    ensures Newest(s.domains, port, e) <==> LastDomain(ops, port) == Some(e)
  {
    forall d ensures match LastDomain(ops, port)
      case None => LastStamp(ops, d, port) == 0
      case Some(l) => 0 < LastStamp(ops, l, port) && (d != l ==> LastStamp(ops, d, port) < LastStamp(ops, l, port))
    {
      LastDomainHasNewestStamp(ops, port, d);
    }
    if LastDomain(ops, port).Some? {
      var l := LastDomain(ops, port).value;
      LastDomainHasNewestStamp(ops, port, l);
      assert StampRefines(s, ops, l, port);
      assert Requested(s.domains, port, l) && s.domains[l].ports[port] == LastStamp(ops, l, port);
      forall d | Requested(s.domains, port, d) ensures s.domains[d].ports[port] == LastStamp(ops, d, port) {
        assert StampRefines(s, ops, d, port);
      }
    } else {
      assert StampRefines(s, ops, e, port);
    }
  }

  /** For every history: exact and learned keys are disjoint, at most 512 are learned, every
      learned origin is the current origin of some domain, and request numbers are distinct. */
  lemma IdentitiesHold(ops: seq<Op>, a: Addr)
    ensures var s := Run(ops);
      && s.exact.Keys !! s.learned.Keys && |s.learned| <= 512
      && (a in s.learned ==> a !in s.exact && exists d :: d in s.domains && s.learned[a] == CurrentOrigin(ops, d))
      && StampsDistinct(s.domains, s.sendSeq)
  {
    RunKeeps(ops);
    RunRefines(ops);
    var s := Run(ops);
    if a in s.learned {
      assert IsOrigin(s.domains, s.learned[a]);
      var d :| d in s.domains && s.domains[d].origin == s.learned[a];
      assert OriginRefines(s, ops, d);
    }
  }

  lemma ApplyGrows(s: Maps, op: Op)
    requires Inv(s)
    ensures Grows(s, Apply(s, op))
  {
    match op
    case Map(origin, m) => AddMappingKeeps(s, origin, m);
    case RestoreFrom(source, port) => RestoreKeeps(s, source, port);
  }

  lemma StepGrows(ops: seq<Op>, op: Op)
    ensures Grows(Run(ops), Run(ops + [op]))
  {
    RunKeeps(ops);
    ApplyGrows(Run(ops), op);
    RunLast(ops, op);
  }

  /** For every continuation of a history, exact mappings and prepared targets stay as they are. */
  lemma {:induction false} ExactNeverOverwritten(ops: seq<Op>, more: seq<Op>)
    ensures Grows(Run(ops), Run(ops + more))
  {
    if more == [] {
      assert ops + more == ops;
    } else {
      var front, op := more[..|more| - 1], more[|more| - 1];
      assert ops + more == ops + front + [op];
      ExactNeverOverwritten(ops, front);
      StepGrows(ops + front, op);
      GrowsTransitive(Run(ops), Run(ops + front), Run(ops + front + [op]));
    }
  }

  lemma RunLast(ops: seq<Op>, op: Op)
    ensures Run(ops + [op]) == Apply(Run(ops), op)
  {
    assert (ops + [op])[..|ops|] == ops;
  }

  /** For every history, a reply that names a domain is restored to that domain's current origin. */
  lemma DomainRestored(ops: seq<Op>, name: string)
    ensures RestoreDomain(Run(ops), name) == CurrentOrigin(ops, Canonical(name))
  {
    RunRefines(ops);
  }
}
