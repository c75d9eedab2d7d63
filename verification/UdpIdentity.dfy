/**
 The object that holds the identity maps: what its methods return and leave is proved to be what
 the history of its calls says.
 */
module UdpIdentity {
  import opened NetTypes
  import PacketScheduler
  import opened UdpMapping
  import opened UdpMappingRuns
  import opened MappingHistory

  lemma NewestIsUnique(domains: map<string, Remote>, sendSeq: nat, port: nat, d: string, e: string)
    requires StampsDistinct(domains, sendSeq) && Newest(domains, port, d) && Newest(domains, port, e)
    ensures d == e
  {
    assert Stamp(domains, d, port) == Stamp(domains, e, port);
  }

  class IdentityMaps {
    var prepared: map<PacketScheduler.Key, Socksaddr>
    var targets: map<string, Socksaddr>
    var exact: map<Addr, Addr>
    var domains: map<string, Remote>
    var learned: map<Addr, Addr>
    var sendSeq: nat
    // the calls that have changed the maps so far
    ghost var ops: seq<Op>

    ghost function View(): Maps
      reads this
    {
      Maps(prepared, targets, exact, domains, learned, sendSeq)
    }

    ghost predicate Valid()
      reads this
    {
      View() == Run(ops)
    }

    constructor ()
      ensures Valid() && ops == []
    {
      prepared, targets, exact, domains, learned, sendSeq := map[], map[], map[], map[], map[], 0;
      ops := [];
    }

    /** Visits the learned entries in any order and drops those of a superseded origin. */
    method ForgetLearned(origin: Addr)
      modifies this`learned
      ensures learned == Forget(old(learned), origin)
    {
      if !origin.IsValid() {
        return;
      }
      var unseen := learned.Keys;
      while unseen != {}
        invariant unseen <= old(learned).Keys
        invariant forall a :: a in learned <==> a in old(learned) && (a in unseen || old(learned)[a] != origin)
        invariant forall a :: a in learned ==> learned[a] == old(learned)[a]
        decreases |unseen|
      {
        var a :| a in unseen;
        unseen := unseen - {a};
        if learned[a] == origin {
          learned := learned - {a};
        }
      }
    }

    method AddDomain(domain: string, from: Addr, port: nat)
      modifies this`domains, this`learned, this`sendSeq
      ensures View() == MapDomain(old(View()), domain, from, port)
    {
      var remote := Remote(from, map[]);
      if domain in domains {
        remote := domains[domain];
        if remote.origin != from {
          ForgetLearned(remote.origin);
          remote := remote.(origin := from);
        }
      }
      if port != 0 {
        sendSeq := sendSeq + 1;
        remote := remote.(ports := remote.ports[port := sendSeq]);
      }
      domains := domains[domain := remote];
    }

    method AddMapping(origin: Metadata, m: Metadata)
      requires Valid()
      modifies this
      ensures View() == UdpMapping.AddMapping(old(View()), origin, m)
      ensures Valid() && ops == old(ops) + [Map(origin, m)]
    {
      ops := ops + [Map(origin, m)];
      RunLast(old(ops), Map(origin, m));
      SetMapping(origin, m);
    }

    method SetMapping(origin: Metadata, m: Metadata)
      modifies this`prepared, this`targets, this`exact, this`domains, this`learned, this`sendSeq
      ensures View() == UdpMapping.AddMapping(old(View()), origin, m)
    {
      var target := Destination(m);
      var key := PacketScheduler.PacketKey(origin.host, origin.dstIP, origin.dstPort);
      if key !in prepared && !target.NoDest? {
        prepared := prepared[key := target];
      }
      if origin.Text() !in targets && !target.NoDest? {
        targets := targets[origin.Text() := target];
      }
      var from := origin.dstIP.Unmap();
      if !from.IsValid() || target.NoDest? {
        return;
      }
      if target.ToFqdn? {
        AddDomain(Canonical(target.name), from, m.dstPort);
        return;
      }
      var addr := target.addr.Unmap();
      if addr !in exact {
        exact := exact[addr := from];
      }
      learned := learned - {addr};
    }

    /** Visits the domains in any order; the answer does not depend on it. */
    method OriginForPort(port: nat) returns (origin: Addr)
      requires Inv(View())
      ensures origin == Attribution(domains, port)
    {
      origin := NoAddr;
      if port == 0 {
        return;
      }
      var newest := 0;
      ghost var best := "";
      var unseen := domains.Keys;
      while unseen != {}
        invariant unseen <= domains.Keys
        invariant origin.IsValid() ==> best in domains.Keys - unseen && Requested(domains, port, best)
                                       && origin == domains[best].origin && newest == domains[best].ports[port]
        invariant forall e :: e in domains.Keys - unseen && Requested(domains, port, e) ==>
                                origin.IsValid() && domains[e].ports[port] <= newest
        decreases |unseen|
      {
        var d :| d in unseen;
        unseen := unseen - {d};
        if port in domains[d].ports && domains[d].origin.IsValid() {
          var seqNo := domains[d].ports[port];
          if !origin.IsValid() || seqNo > newest {
            origin, newest, best := domains[d].origin, seqNo, d;
          }
        }
      }
      if origin.IsValid() {
        assert Newest(domains, port, best);
        forall e | Newest(domains, port, e) ensures e == best {
          NewestIsUnique(domains, sendSeq, port, e, best);
        }
      } else {
        assert forall e :: !Requested(domains, port, e);
      }
    }

    /** The read-locked phase of `RestoreReadFrom` for an IP reply: the answer, unless the reply has
        to be attributed and that remembered. */
    method RestoreRead(source: Addr, port: nat) returns (answer: Option<Addr>)
      requires Valid()
      ensures answer == Peek(View(), source, port)
      ensures answer.Some? ==> answer.value == AnswerFor(ops, source, port)
      ensures answer.Some? ==> Run(ops + [RestoreFrom(source, port)]) == View()
    {
      RunKeeps(ops);
      PeeksAreHistory(ops, source, port);
      PeekAnswers(ops, source, port);
      if source in exact {
        return Some(exact[source]);
      }
      if source in learned {
        return Some(learned[source]);
      }
      var origin := OriginForPort(port);
      answer := if origin.IsValid() && |learned| < MAX_LEARNED then None else Some(source);
    }

    /** The write-locked phase, which decides everything again. */
    method RestoreWrite(source: Addr, port: nat) returns (answer: Addr)
      requires Valid()
      modifies this`learned, this`ops
      ensures (View(), answer) == Restore(old(View()), source, port)
      ensures Valid() && ops == old(ops) + [RestoreFrom(source, port)] && answer == AnswerFor(old(ops), source, port)
    {
      RunKeeps(ops);
      AnswersAreHistory(ops, source, port);
      ops := ops + [RestoreFrom(source, port)];
      RunLast(old(ops), RestoreFrom(source, port));
      answer := Attribute(source, port);
    }

    method Attribute(source: Addr, port: nat) returns (answer: Addr)
      requires Inv(View())
      modifies this`learned
      ensures (View(), answer) == Restore(old(View()), source, port)
    {
      if source in exact {
        return exact[source];
      }
      if source in learned {
        return learned[source];
      }
      answer := OriginForPort(port);
      if answer.IsValid() && |learned| < MAX_LEARNED {
        learned := learned[source := answer];
        return;
      }
      answer := source;
    }

    /** `RestoreReadFrom`: a reply that names a domain gets its current origin, one without an address
        none, and an address the answer of the history. */
    method RestoreReadFrom(from: Socksaddr) returns (answer: Addr)
      requires Valid()
      modifies this`learned, this`ops
      ensures Valid() && old(ops) <= ops
      ensures match from
        case NoDest => answer == NoAddr && ops == old(ops)
        case ToFqdn(name, _) => answer == CurrentOrigin(ops, Canonical(name)) && ops == old(ops)
        case ToIp(addr, port) =>
          if addr.IsValid() then
            && answer == AnswerFor(old(ops), addr.Unmap(), port)
            && View() == Run(old(ops) + [RestoreFrom(addr.Unmap(), port)])
          else answer == NoAddr && ops == old(ops)
    {
      match from
      case NoDest => answer := NoAddr;
      case ToFqdn(name, _) =>
        DomainRestored(ops, name);
        var domain := Canonical(name);
        answer := if domain in domains then domains[domain].origin else NoAddr;
      case ToIp(addr, port) =>
        var source := addr.Unmap();
        if !source.IsValid() {
          return NoAddr;
        }
        var known := RestoreRead(source, port);
        if known.Some? {
          return known.value;
        }
        answer := RestoreWrite(source, port);
    }
  }

  /** An answer of the read phase is that of a whole restore, which changes nothing. */
  lemma PeekAnswers(ops: seq<Op>, source: Addr, port: nat)
    ensures Peek(Run(ops), source, port).Some? ==> Run(ops + [RestoreFrom(source, port)]) == Run(ops)
  {
    RunLast(ops, RestoreFrom(source, port));
  }
}
