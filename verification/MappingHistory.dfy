/**
 The answers of the identity maps as functions of the calls made so far, without the maps: which
 origin a reply is restored to, what has been learned, and which target each packet key got.
 */
module MappingHistory {
  import opened NetTypes
  import opened PacketScheduler
  import opened UdpMapping
  import opened UdpMappingRuns

  /** A mapping call for an address with a valid origin. */
  datatype ExactCall = ExactCall(target: Addr, origin: Addr)

  /** The address a mapping call is for: the destination IP, or the one its host spells. */
  function CalledAddr(m: Metadata): Addr {
    if m.dstIP.IsValid() then m.dstIP.Unmap() else if m.host != "" then m.hostAddr.Unmap() else NoAddr
  }

  function AsExactCall(op: Op): Option<ExactCall> {
    match op
    case Map(origin, m) =>
      if CalledAddr(m).IsValid() && origin.dstIP.IsValid()
      then Some(ExactCall(CalledAddr(m), origin.dstIP.Unmap())) else None
    case RestoreFrom(_, _) => None
  }

  /** The origin of the first mapping call for an address. */
  function FirstOrigin(ops: seq<Op>, a: Addr): Addr {
    if ops == [] then NoAddr
    else
      var earlier, call := FirstOrigin(ops[..|ops| - 1], a), AsExactCall(ops[|ops| - 1]);
      if earlier.NoAddr? && call.Some? && call.value.target == a then call.value.origin else earlier
  }

  /** The origin a port's reply is guessed to belong to: that of the domain last requested there. */
  function Guess(ops: seq<Op>, port: nat): Addr {
    if port == 0 || LastDomain(ops, port).None? then NoAddr else CurrentOrigin(ops, LastDomain(ops, port).value)
  }

  /** A reply that is attributed for the first time. */
  predicate IsNew(ops: seq<Op>, a: Addr, port: nat) {
    FirstOrigin(ops, a).NoAddr? && a !in Guesses(ops) && Guess(ops, port).IsValid() && |Guesses(ops)| < 512
  }

  /** The guesses still standing: each made once, dropped when its origin is superseded or its address
      is mapped, and no more than 512. */
  function Guesses(ops: seq<Op>): map<Addr, Addr> {
    if ops == [] then map[]
    else
      var front, op := ops[..|ops| - 1], ops[|ops| - 1];
      var guesses := Guesses(front);
      match op
      case RestoreFrom(a, port) =>
        if FirstOrigin(front, a).NoAddr? && a !in guesses && Guess(front, port).IsValid() && |guesses| < 512
        then guesses[a := Guess(front, port)]
        else guesses
      case Map(_, _) =>
        if AsExactCall(op).Some? then guesses - {AsExactCall(op).value.target}
        else if AsDomainCall(op).Some? then
          var call := AsDomainCall(op).value;
          var was := CurrentOrigin(front, call.domain);
          if was.IsValid() && was != call.origin then map a | a in guesses && guesses[a] != was :: guesses[a]
          else guesses
        else guesses
  }

  /** What a reply of this address and port is restored to. */
  function AnswerFor(ops: seq<Op>, a: Addr, port: nat): Addr {
    if FirstOrigin(ops, a).IsValid() then FirstOrigin(ops, a)
    else if a in Guesses(ops) then Guesses(ops)[a]
    else if Guess(ops, port).IsValid() && |Guesses(ops)| < 512 then Guess(ops, port)
    else a
  }

  // ---------------------------------------------------------------- the maps hold just that

  ghost predicate ExactAre(s: Maps, ops: seq<Op>) {
    forall a :: if a in s.exact then s.exact[a].IsValid() && FirstOrigin(ops, a) == s.exact[a]
                else FirstOrigin(ops, a) == NoAddr
  }

  /** What a mapping call does to the addresses. */
  lemma CallEffect(s: Maps, op: Op)
    requires op.Map?
    ensures var u := Apply(s, op);
      match AsExactCall(op)
      case Some(call) =>
        && u.exact == (if call.target in s.exact then s.exact else s.exact[call.target := call.origin])
        && u.learned == s.learned - {call.target} && call.origin.IsValid()
      case None =>
        && u.exact == s.exact
        && match AsDomainCall(op)
           case Some(call) => u.learned == Superseded(s.domains, s.learned, call.domain, call.origin)
           case None => u.learned == s.learned
  {
    var target := Destination(op.m);
    assert target.ToIp? <==> CalledAddr(op.m).IsValid();
    assert target.ToIp? ==> target.addr.Unmap() == CalledAddr(op.m);
  }

  lemma ExactMoreIs(s: Maps, u: Maps, front: seq<Op>, op: Op)
    requires ExactAre(s, front)
    requires match AsExactCall(op)
      case Some(call) =>
        && call.origin.IsValid()
        && u.exact == (if call.target in s.exact then s.exact else s.exact[call.target := call.origin])
      case None => u.exact == s.exact
    ensures ExactAre(u, front + [op])
  {
    assert (front + [op])[..|front|] == front;
  }

  lemma {:induction false} RunExact(ops: seq<Op>)
    ensures ExactAre(Run(ops), ops)
  {
    if ops != [] {
      var front, op := ops[..|ops| - 1], ops[|ops| - 1];
      RunExact(front);
      if op.Map? {
        CallEffect(Run(front), op);
      }
      ExactMoreIs(Run(front), Run(ops), front, op);
      assert ops == front + [op];
    }
  }

  lemma GuessIs(ops: seq<Op>, port: nat)
    ensures Attribution(Run(ops).domains, port) == Guess(ops, port)
  {
    if port != 0 {
      AttributedToLastRequest(ops, port);
    }
  }

  lemma SupersededIs(s: Maps, ops: seq<Op>, call: DomainCall)
    requires Refines(s, ops)
    ensures var was := CurrentOrigin(ops, call.domain);
      Superseded(s.domains, s.learned, call.domain, call.origin) ==
        if was.IsValid() && was != call.origin then map a | a in s.learned && s.learned[a] != was :: s.learned[a]
        else s.learned
  {
    assert OriginRefines(s, ops, call.domain);
  }

  lemma {:induction false} RunGuesses(ops: seq<Op>)
    ensures Run(ops).learned == Guesses(ops)
  {
    if ops != [] {
      var front, op := ops[..|ops| - 1], ops[|ops| - 1];
      RunGuesses(front);
      match op
      case Map(_, _) =>
        CallEffect(Run(front), op);
        if AsDomainCall(op).Some? {
          RunRefines(front);
          SupersededIs(Run(front), front, AsDomainCall(op).value);
        }
      case RestoreFrom(a, port) =>
        RunExact(front);
        GuessIs(front, port);
    }
  }

  /** In every history, a reply is restored to the origin first mapped to its address; failing that,
      to the origin it was given before, unless that has been superseded; failing that, to the domain
      last requested at its port, while fewer than 512 addresses have such an origin; and otherwise
      it keeps its own address. */
  lemma AnswersAreHistory(ops: seq<Op>, a: Addr, port: nat)
    ensures Restore(Run(ops), a, port).1 == AnswerFor(ops, a, port)
  {
    RunExact(ops);
    RunGuesses(ops);
    GuessIs(ops, port);
  }

  /** The read phase gives that answer too, or none if it would have to learn. */
  lemma PeeksAreHistory(ops: seq<Op>, a: Addr, port: nat)
    ensures Peek(Run(ops), a, port) == if IsNew(ops, a, port) then None else Some(AnswerFor(ops, a, port))
  {
    RunExact(ops);
    RunGuesses(ops);
    GuessIs(ops, port);
  }

  // ---------------------------------------------------------------- prepared targets

  /** A mapping call's destination: an address if there is one, else the host's domain. */
  function CalledDestination(m: Metadata): Option<Socksaddr> {
    if CalledAddr(m).IsValid() then Some(ToIp(CalledAddr(m), m.dstPort))
    else if m.host != "" then Some(ToFqdn(m.host, m.dstPort))
    else None
  }

  lemma DestinationIs(m: Metadata)
    ensures match CalledDestination(m) case Some(d) => Destination(m) == d case None => Destination(m) == NoDest
  {
  }

  function KeyOf(m: Metadata): Key { PacketKey(m.host, m.dstIP, m.dstPort) }

  /** The destination of the first mapping call with one, made for packets of a key. */
  function FirstTarget(ops: seq<Op>, key: Key): Option<Socksaddr> {
    if ops == [] then None
    else
      var earlier, op := FirstTarget(ops[..|ops| - 1], key), ops[|ops| - 1];
      if earlier.None? && op.Map? && KeyOf(op.origin) == key then CalledDestination(op.m) else earlier
  }

  /** ...and for an origin as it is spelled. */
  function FirstSpelled(ops: seq<Op>, text: string): Option<Socksaddr> {
    if ops == [] then None
    else
      var earlier, op := FirstSpelled(ops[..|ops| - 1], text), ops[|ops| - 1];
      if earlier.None? && op.Map? && op.origin.Text() == text then CalledDestination(op.m) else earlier
  }

  lemma PreparedStep(s: Maps, op: Op)
    requires op.Map?
    ensures var (u, key, text, d) := (Apply(s, op), KeyOf(op.origin), op.origin.Text(), CalledDestination(op.m));
      && u.prepared == (if d.None? || key in s.prepared then s.prepared else s.prepared[key := d.value])
      && u.targets == (if d.None? || text in s.targets then s.targets else s.targets[text := d.value])
  {
    DestinationIs(op.m);
    AddressesApart(s, op, Prepare(s, KeyOf(op.origin), op.origin.Text(), Destination(op.m)));
  }

  /** The addresses are mapped after the targets are prepared. */
  lemma AddressesApart(s: Maps, op: Op, p: Maps)
    requires op.Map?
    requires p == Prepare(s, KeyOf(op.origin), op.origin.Text(), Destination(op.m))
    ensures Apply(s, op).prepared == p.prepared && Apply(s, op).targets == p.targets
  {
  }

  /** In every history, packets of a key go where the first mapping call made for that key with a
      destination said, and so does whatever an origin's spelling is looked up for. */
  lemma {:induction false} TargetsAreHistory(ops: seq<Op>, key: Key, text: string)
    ensures var s := Run(ops);
      && FirstTarget(ops, key) == (if key in s.prepared then Some(s.prepared[key]) else None)
      && FirstSpelled(ops, text) == (if text in s.targets then Some(s.targets[text]) else None)
  {
    if ops != [] {
      var front, op := ops[..|ops| - 1], ops[|ops| - 1];
      TargetsAreHistory(front, key, text);
      if op.Map? {
        PreparedStep(Run(front), op);
      }
    }
  }

  // ---------------------------------------------------------------- names

  /** Domains are told apart regardless of case and of one final dot. */
  lemma CanonicalIff(a: string, b: string)
    ensures Canonical(a) == Canonical(b) <==> Lower(Undotted(a)) == Lower(Undotted(b))
  {
    LowerUndotted(a);
    LowerUndotted(b);
  }

  function Undotted(s: string): string {
    if s != "" && s[|s| - 1] == '.' then s[..|s| - 1] else s
  }

  lemma LowerUndotted(s: string)
    ensures Canonical(s) == Lower(Undotted(s))
  {
    if s != "" {
      assert Lower(s)[|s| - 1] == '.' <==> s[|s| - 1] == '.';
      assert Lower(s)[..|s| - 1] == Lower(s[..|s| - 1]);
    }
  }
}
