/**
 The whole DIRECT UDP race (`directUDPRacePacketConn`): all targets, the map from a
 candidate address to the targets that list it, and what the reader handed up.
 Every step is one mutex-held section; sockets, resolver and clock are step inputs.
 */
module UdpRace {
  import opened NetTypes
  import opened QuicHeader
  import opened UdpTarget
  import opened UdpTargetSafety

  /** A source address as the socket reports it; `Other` is not a UDP address. */
  datatype NetAddr = Udp(at: AddrPort) | Other

  /** One datagram handed to the application. */
  datatype Surfaced =
    | Attributed(logical: AddrPort, source: AddrPort)
    | Raw(addr: NetAddr)

  datatype Conn = Conn(
    closed: bool,
    families: set<int>,
    targets: map<AddrPort, Tracked>,
    sources: map<AddrPort, seq<AddrPort>>,
    surfaced: seq<Surfaced>)

  const EMPTY := Conn(false, {}, map[], map[], [])

  datatype Outcome = Done | Closed | NoSocket | NoCandidate

  datatype Step =
    | OpenSocket(family: int)
    | Close
    | Register(logical: AddrPort, cands: seq<AddrPort>, host: string, adapter: string, now: int)
    | FailSends(logical: AddrPort, failed: set<AddrPort>, settle: bool)
    | Write(addr: AddrPort, payload: Payload, now: int)
    | Read(from: NetAddr, payload: Payload, now: int)
    | StartCollecting(logical: AddrPort)
    | StopCollecting(logical: AddrPort)

  // ---------------------------------------------------------------- the sections

  function TargetsOf(sources: map<AddrPort, seq<AddrPort>>, c: AddrPort): seq<AddrPort> {
    if c in sources then sources[c] else []
  }

  function Link(sources: map<AddrPort, seq<AddrPort>>, added: seq<AddrPort>, logical: AddrPort)
    : map<AddrPort, seq<AddrPort>>
  {
    if added == [] then sources
    else
      var shorter := Link(sources, added[..|added| - 1], logical);
      var c := added[|added| - 1];
      shorter[c := TargetsOf(shorter, c) + [logical]]
  }

  function TargetFor(s: Conn, logical: AddrPort, host: string, adapter: string): Tracked {
    if logical in s.targets then s.targets[logical] else Tracked(NewTarget(host, adapter), [])
  }

  function RegisterStep(s: Conn, logical: AddrPort, cands: seq<AddrPort>, host: string, adapter: string, now: int)
    : (Conn, Outcome)
  {
    if s.closed then (s, Closed)
    else if s.families == {} then (s, NoSocket)
    else
      var x := TargetFor(s, logical, host, adapter);
      if !AcceptsCandidates(x.t, host, adapter, now) then (s, Done)
      else
        var added := Added(x.t.live, s.families, cands);
        if x.t.candidates + added == [] then (s, NoCandidate)
        else (s.(targets := s.targets[logical := RegisterTracked(x, added)],
                 sources := Link(s.sources, added, logical)), Done)
  }

  function Update(s: Conn, logical: AddrPort, op: UdpTargetSafety.Op): Conn {
    if logical in s.targets then s.(targets := s.targets[logical := Apply(s.targets[logical], op)]) else s
  }

  /** The reader's loop over the targets that list `source`, up to the first that takes the reply. */
  function Scan(targets: map<AddrPort, Tracked>, refs: seq<AddrPort>, source: AddrPort, data: Payload, now: int)
    : (map<AddrPort, Tracked>, Option<AddrPort>)
  {
    if refs == [] then (targets, None)
    else if refs[0] !in targets then Scan(targets, refs[1..], source, data, now)
    else
      var x := targets[refs[0]];
      var y := targets[refs[0] := Apply(x, Receive(source, data, now))];
      if Examine(x.t, source, LongHeaderIds(data), now).1 then (y, Some(refs[0]))
      else Scan(y, refs[1..], source, data, now)
  }

  /** What one datagram from `source` is handed up as, if at all. */
  function Reported(from: NetAddr, source: AddrPort, known: bool, hit: Option<AddrPort>): seq<Surfaced> {
    if hit.Some? && hit.value.IsValid() then [Attributed(hit.value, source)]
    else if !known then [Raw(from)]
    else []
  }

  function ReadStep(s: Conn, from: NetAddr, data: Payload, now: int): Conn {
    match from
    case Other => s.(surfaced := s.surfaced + [Raw(from)])
    case Udp(at) =>
      var source := at.Unmap();
      var (targets, hit) := Scan(s.targets, TargetsOf(s.sources, source), source, data, now);
      s.(targets := targets, surfaced := s.surfaced + Reported(from, source, source in s.sources, hit))
  }

  function Next(s: Conn, step: Step): Conn {
    match step
    case OpenSocket(family) => if s.closed then s else s.(families := s.families + {family})
    case Close => s.(closed := true)
    case Register(logical, cands, host, adapter, now) => RegisterStep(s, logical, cands, host, adapter, now).0
    case FailSends(logical, failed, settle) => Update(s, logical, UdpTargetSafety.FailSends(failed, settle))
    case Write(addr, payload, now) => Update(s, addr.Unmap(), Send(payload, now))
    case Read(from, data, now) => ReadStep(s, from, data, now)
    case StartCollecting(logical) => Update(s, logical, UdpTargetSafety.StartCollecting)
    case StopCollecting(logical) => Update(s, logical, UdpTargetSafety.StopCollecting)
  }

  /** Candidates come from `uniqueDirectUDPIPs`, hence are valid; the settling failure
      section belongs to a write that has fanned out, hence has started the race. */
  predicate Admissible(s: Conn, step: Step) {
    match step
    case Register(_, cands, _, _, _) => forall c :: c in cands ==> c.IsValid()
    case FailSends(logical, _, settle) => settle && logical in s.targets ==> s.targets[logical].t.started.Some?
    case _ => true
  }

  // ---------------------------------------------------------------- invariant

  ghost predicate HasDelivery(x: Tracked, source: AddrPort) {
    exists i :: 0 <= i < |x.trail| && x.trail[i].Reply? && x.trail[i].delivered && x.trail[i].source == source
  }

  ghost predicate AllBorn(targets: map<AddrPort, Tracked>) {
    forall l :: l in targets ==> Born(targets[l])
  }

  predicate Linked(targets: map<AddrPort, Tracked>, sources: map<AddrPort, seq<AddrPort>>) {
    && (forall c, l :: c in sources && l in sources[c] ==> l in targets && c in targets[l].t.candidates)
    && (forall l, c :: l in targets && c in targets[l].t.candidates ==> c in sources && l in sources[c])
  }

  ghost predicate Surfacing(targets: map<AddrPort, Tracked>, surfaced: seq<Surfaced>) {
    forall i :: 0 <= i < |surfaced| && surfaced[i].Attributed? ==>
      surfaced[i].logical in targets && HasDelivery(targets[surfaced[i].logical], surfaced[i].source)
  }

  ghost predicate ConnInv(s: Conn) {
    AllBorn(s.targets) && Linked(s.targets, s.sources) && Surfacing(s.targets, s.surfaced)
  }

  ghost predicate Grows(targets: map<AddrPort, Tracked>, more: map<AddrPort, Tracked>) {
    forall l :: l in targets ==> l in more && Evolves(targets[l], more[l])
  }

  lemma GrowsRefl(targets: map<AddrPort, Tracked>)
    ensures Grows(targets, targets)
  {
    forall l | l in targets ensures Evolves(targets[l], targets[l]) {
      EvolvesRefl(targets[l]);
    }
  }

  lemma GrowsTransitive(a: map<AddrPort, Tracked>, b: map<AddrPort, Tracked>, c: map<AddrPort, Tracked>)
    requires Grows(a, b) && Grows(b, c)
    ensures Grows(a, c)
  {
    forall l | l in a ensures l in c && Evolves(a[l], c[l]) {
      EvolvesTransitive(a[l], b[l], c[l]);
    }
  }

  /** Running one section on one target. */
  lemma GrowsByOne(targets: map<AddrPort, Tracked>, logical: AddrPort, op: UdpTargetSafety.Op)
    requires AllBorn(targets) && logical in targets && Enabled(targets[logical], op)
    ensures var more := targets[logical := Apply(targets[logical], op)]; AllBorn(more) && Grows(targets, more)
  {
    var x := targets[logical];
    EvolvesByOne(x, op);
    BornEvolves(x, Apply(x, op));
    GrowsRefl(targets);
  }

  lemma DeliveryStays(x: Tracked, y: Tracked, source: AddrPort)
    requires Born(x) && Evolves(x, y) && HasDelivery(x, source)
    ensures HasDelivery(y, source)
  {
    BornEvolves(x, y);
    var i :| 0 <= i < |x.trail| && x.trail[i].Reply? && x.trail[i].delivered && x.trail[i].source == source;
    assert y.trail[i] == x.trail[i];
  }

  /** Earlier attributions stay justified while the targets grow. */
  lemma SurfacingStays(targets: map<AddrPort, Tracked>, more: map<AddrPort, Tracked>, surfaced: seq<Surfaced>)
    requires AllBorn(targets) && Surfacing(targets, surfaced) && Grows(targets, more)
    ensures Surfacing(more, surfaced)
  {
    forall i | 0 <= i < |surfaced| && surfaced[i].Attributed?
      ensures surfaced[i].logical in more && HasDelivery(more[surfaced[i].logical], surfaced[i].source)
    {
      var l := surfaced[i].logical;
      DeliveryStays(targets[l], more[l], surfaced[i].source);
    }
  }

  lemma SurfacingAppend(targets: map<AddrPort, Tracked>, surfaced: seq<Surfaced>, more: seq<Surfaced>)
    requires Surfacing(targets, surfaced) && Surfacing(targets, more)
    ensures Surfacing(targets, surfaced + more)
  {
  }

  // ---------------------------------------------------------------- preservation

  predicate SameCandidates(a: map<AddrPort, Tracked>, b: map<AddrPort, Tracked>) {
    a.Keys == b.Keys && forall l :: l in a ==> a[l].t.candidates == b[l].t.candidates
  }

  lemma LinkedSame(a: map<AddrPort, Tracked>, b: map<AddrPort, Tracked>, sources: map<AddrPort, seq<AddrPort>>)
    requires Linked(a, sources) && SameCandidates(a, b)
    ensures Linked(b, sources)
  {
  }

  lemma ApplyKeepsCandidates(x: Tracked, op: UdpTargetSafety.Op)
    requires !op.Register?
    ensures Apply(x, op).t.candidates == x.t.candidates
  {
    match op
    case Send(payload, now) => WriteKeepsCandidates(x.t, LongHeaderIds(payload), payload, now);
    case Receive(source, data, now) => ExamineKeepsCandidates(x.t, source, LongHeaderIds(data), now);
    case _ =>
  }

  lemma WriteKeepsCandidates(t: Target, ids: Ids, payload: Payload, now: int)
    ensures UdpTarget.Write(t, ids, payload, now).0.candidates == t.candidates
  {
    NoteEffect(t, ids, payload);
    SettleEffect(NoteQuic(t, ids, payload), |payload|, now);
  }

  lemma ExamineKeepsCandidates(t: Target, source: AddrPort, ids: Ids, now: int)
    ensures Examine(t, source, ids, now).0.candidates == t.candidates
  {
    assert NoteReply(t, source, ServerCid(t, ids)).candidates == t.candidates;
  }

  lemma UpdateKeeps(s: Conn, logical: AddrPort, op: UdpTargetSafety.Op)
    requires ConnInv(s) && !op.Register? && (logical in s.targets ==> Enabled(s.targets[logical], op))
    ensures var u := Update(s, logical, op);
      ConnInv(u) && Grows(s.targets, u.targets) && u.surfaced == s.surfaced
  {
    if logical in s.targets {
      var u := Update(s, logical, op);
      GrowsByOne(s.targets, logical, op);
      ApplyKeepsCandidates(s.targets[logical], op);
      LinkedSame(s.targets, u.targets, s.sources);
      SurfacingStays(s.targets, u.targets, s.surfaced);
    } else {
      GrowsRefl(s.targets);
    }
  }

  lemma {:induction false} LinkAdds(sources: map<AddrPort, seq<AddrPort>>, added: seq<AddrPort>, logical: AddrPort)
    ensures var more := Link(sources, added, logical);
      && (forall c :: c in more <==> c in sources || c in added)
      && (forall c, l :: c in more ==> (l in more[c] <==> l in TargetsOf(sources, c) || (l == logical && c in added)))
  {
    if added != [] {
      var c := added[|added| - 1];
      var front := added[..|added| - 1];
      LinkAdds(sources, front, logical);
      assert added == front + [c];
    }
  }

  /** Appending a target's new candidates to both maps keeps them each other's inverse. */
  lemma LinkKeepsLinked(targets: map<AddrPort, Tracked>, sources: map<AddrPort, seq<AddrPort>>, logical: AddrPort,
                        y: Tracked, before: seq<AddrPort>, added: seq<AddrPort>)
    requires Linked(targets, sources)
    requires before == if logical in targets then targets[logical].t.candidates else []
    requires y.t.candidates == before + added
    ensures Linked(targets[logical := y], Link(sources, added, logical))
  {
    LinkAdds(sources, added, logical);
    var more, linked := targets[logical := y], Link(sources, added, logical);
    forall c, l | c in linked && l in linked[c] ensures l in more && c in more[l].t.candidates {
      assert l in TargetsOf(sources, c) || (l == logical && c in added);
    }
    forall l, c | l in more && c in more[l].t.candidates ensures c in linked && l in linked[c] {
      assert l in TargetsOf(sources, c) || (l == logical && c in added);
    }
  }

  lemma RegisterKeeps(s: Conn, logical: AddrPort, cands: seq<AddrPort>, host: string, adapter: string, now: int)
    requires ConnInv(s) && forall c :: c in cands ==> c.IsValid()
    ensures var u := RegisterStep(s, logical, cands, host, adapter, now).0;
      ConnInv(u) && Grows(s.targets, u.targets) && u.surfaced == s.surfaced
  {
    var u := RegisterStep(s, logical, cands, host, adapter, now).0;
    GrowsRefl(s.targets);
    if u != s {
      var x := TargetFor(s, logical, host, adapter);
      EvolvesRefl(Tracked(NewTarget(host, adapter), []));
      var op := UdpTargetSafety.Register(cands, s.families);
      var y := Apply(x, op);
      EvolvesByOne(x, op);
      BornEvolves(x, y);
      var added := Added(x.t.live, s.families, cands);
      assert u.targets == s.targets[logical := y];
      LinkKeepsLinked(s.targets, s.sources, logical, y, x.t.candidates, added);
      SurfacingStays(s.targets, u.targets, s.surfaced);
    }
  }

  lemma ReceiveDelivers(x: Tracked, source: AddrPort, data: Payload, now: int)
    requires Examine(x.t, source, LongHeaderIds(data), now).1
    ensures HasDelivery(Apply(x, Receive(source, data, now)), source)
  {
    var y := Apply(x, Receive(source, data, now));
    assert y.trail[|x.trail|].Reply?;
  }

  lemma {:induction false} ScanKeeps(
    targets: map<AddrPort, Tracked>, refs: seq<AddrPort>, source: AddrPort, data: Payload, now: int)
    requires AllBorn(targets)
    requires forall l :: l in refs ==> l in targets && source in targets[l].t.candidates
    ensures var (more, hit) := Scan(targets, refs, source, data, now);
      && AllBorn(more) && Grows(targets, more) && SameCandidates(targets, more)
      && (hit.Some? ==> hit.value in more && HasDelivery(more[hit.value], source))
    decreases |refs|
  {
    if refs == [] {
      GrowsRefl(targets);
    } else {
      var l := refs[0];
      var x := targets[l];
      var op := Receive(source, data, now);
      var y := targets[l := Apply(x, op)];
      GrowsByOne(targets, l, op);
      ApplyKeepsCandidates(x, op);
      if Examine(x.t, source, LongHeaderIds(data), now).1 {
        ReceiveDelivers(x, source, data, now);
      } else {
        ScanKeeps(y, refs[1..], source, data, now);
        GrowsTransitive(targets, y, Scan(y, refs[1..], source, data, now).0);
      }
    }
  }

  lemma ReadKeeps(s: Conn, from: NetAddr, data: Payload, now: int)
    requires ConnInv(s)
    ensures var u := ReadStep(s, from, data, now);
      ConnInv(u) && Grows(s.targets, u.targets) && s.surfaced <= u.surfaced
  {
    if from.Udp? {
      var source := from.at.Unmap();
      var refs := TargetsOf(s.sources, source);
      ScanKeeps(s.targets, refs, source, data, now);
      var (targets, hit) := Scan(s.targets, refs, source, data, now);
      ScannedKeeps(s, targets, from, source, hit);
    } else {
      GrowsRefl(s.targets);
    }
  }

  /** What the scan of the targets leaves keeps the connection's invariant. */
  lemma ScannedKeeps(s: Conn, targets: map<AddrPort, Tracked>, from: NetAddr, source: AddrPort, hit: Option<AddrPort>)
    requires ConnInv(s) && AllBorn(targets) && Grows(s.targets, targets) && SameCandidates(s.targets, targets)
    requires hit.Some? ==> hit.value in targets && HasDelivery(targets[hit.value], source)
    ensures var more := Reported(from, source, source in s.sources, hit);
      ConnInv(s.(targets := targets, surfaced := s.surfaced + more))
  {
    LinkedSame(s.targets, targets, s.sources);
    SurfacingStays(s.targets, targets, s.surfaced);
    SurfacingAppend(targets, s.surfaced, Reported(from, source, source in s.sources, hit));
  }

  lemma NextKeeps(s: Conn, step: Step)
    requires ConnInv(s) && Admissible(s, step)
    ensures ConnInv(Next(s, step)) && Grows(s.targets, Next(s, step).targets) && s.surfaced <= Next(s, step).surfaced
  {
    match step
    case Register(logical, cands, host, adapter, now) => RegisterKeeps(s, logical, cands, host, adapter, now);
    case FailSends(logical, failed, settle) => UpdateKeeps(s, logical, UdpTargetSafety.FailSends(failed, settle));
    case Write(addr, payload, now) => UpdateKeeps(s, addr.Unmap(), Send(payload, now));
    case Read(from, data, now) => ReadKeeps(s, from, data, now);
    case StartCollecting(logical) => UpdateKeeps(s, logical, UdpTargetSafety.StartCollecting);
    case StopCollecting(logical) => UpdateKeeps(s, logical, UdpTargetSafety.StopCollecting);
    case _ =>
      GrowsRefl(s.targets);
  }

  // ---------------------------------------------------------------- whole runs

  ghost predicate IsRun(states: seq<Conn>, steps: seq<Step>) {
    && |states| == |steps| + 1
    && states[0] == EMPTY
    && forall i :: 0 <= i < |steps| ==> Admissible(states[i], steps[i]) && states[i + 1] == Next(states[i], steps[i])
  }

  lemma {:induction false} RunInv(states: seq<Conn>, steps: seq<Step>, i: nat)
    requires IsRun(states, steps) && i < |states|
    ensures ConnInv(states[i])
  {
    if i > 0 {
      RunInv(states, steps, i - 1);
      NextKeeps(states[i - 1], steps[i - 1]);
    }
  }

  lemma {:induction false} GrowsAlong(targets: seq<map<AddrPort, Tracked>>, i: nat, j: nat)
    requires i <= j < |targets| && forall k :: 0 < k < |targets| ==> Grows(targets[k - 1], targets[k])
    ensures Grows(targets[i], targets[j])
    decreases j - i
  {
    if i == j {
      GrowsRefl(targets[i]);
    } else {
      GrowsAlong(targets, i, j - 1);
      GrowsTransitive(targets[i], targets[j - 1], targets[j]);
    }
  }

  lemma RunGrows(states: seq<Conn>, steps: seq<Step>, i: nat, j: nat)
    requires IsRun(states, steps) && i <= j < |states|
    ensures Grows(states[i].targets, states[j].targets)
  {
    var targets := seq(|states|, k requires 0 <= k < |states| => states[k].targets);
    forall k | 0 < k < |targets| ensures Grows(targets[k - 1], targets[k]) {
      StepGrows(states, steps, k - 1);
    }
    GrowsAlong(targets, i, j);
  }

  lemma StepGrows(states: seq<Conn>, steps: seq<Step>, i: nat)
    requires IsRun(states, steps) && i < |steps|
    ensures Grows(states[i].targets, states[i + 1].targets)
  {
    RunInv(states, steps, i);
    NextKeeps(states[i], steps[i]);
  }

  /** In every run, a target that has not turned to QUIC keeps its winner from the moment
      it is set, the winner is a registered candidate, and everything attributed to the
      target's address came from that winner. */
  lemma OneWinner(states: seq<Conn>, steps: seq<Step>, i: nat, j: nat, l: AddrPort)
    requires IsRun(states, steps) && i <= j < |states|
    requires l in states[i].targets && (l in states[j].targets ==> !states[j].targets[l].t.quic)
    ensures l in states[j].targets
    ensures var (t, u) := (states[i].targets[l].t, states[j].targets[l].t);
      && (t.winner.IsValid() ==> u.winner == t.winner)
      && (u.winner.IsValid() ==> u.winner in u.candidates)
      && forall k, source :: 0 <= k < |states[j].surfaced| && states[j].surfaced[k] == Attributed(l, source) ==>
           u.winner.IsValid() && source == u.winner
  {
    RunInv(states, steps, i);
    RunInv(states, steps, j);
    RunGrows(states, steps, i, j);
    BornEvolves(states[i].targets[l], states[j].targets[l]);
    BornInv(states[j].targets[l]);
    forall k, source | 0 <= k < |states[j].surfaced| && states[j].surfaced[k] == Attributed(l, source)
      ensures states[j].targets[l].t.winner.IsValid() && source == states[j].targets[l].t.winner
    {
      AttributedToWinner(states[j], k, l, source);
    }
  }

  /** In every run, a non-QUIC target copies at most four datagrams to a non-empty set of
      candidates, and its byte counter is what was really sent and stays within the larger
      of 16 KiB and the first fan-out. */
  lemma RaceIsBounded(states: seq<Conn>, steps: seq<Step>, i: nat, l: AddrPort)
    requires IsRun(states, steps) && i < |states| && l in states[i].targets && !states[i].targets[l].t.quic
    ensures var x := states[i].targets[l];
      && FanOuts(x.trail) <= 4
      && x.t.bytes == RaceBytes(x.trail)
      && (RaceBytes(x.trail) <= 16384 || RaceBytes(x.trail) <= FirstFanOut(x.trail))
  {
    RunInv(states, steps, i);
    BornInv(states[i].targets[l]);
  }

  /** In every run, the server-ID table of a target is exact about all replies examined so
      far, an ambiguous ID stays ambiguous, and the table is bounded. */
  lemma TableRefinesReplies(states: seq<Conn>, steps: seq<Step>, i: nat, j: nat, l: AddrPort, cid: seq<byte>)
    requires IsRun(states, steps) && i <= j < |states| && l in states[i].targets
    ensures l in states[j].targets
    ensures var (t, x) := (states[i].targets[l].t, states[j].targets[l]);
      && |x.t.cids| <= 32
      && (cid in x.t.cids && x.t.cids[cid].IsValid() ==>
            Seen(x.trail, cid, x.t.cids[cid]) && forall s :: Seen(x.trail, cid, s) ==> s == x.t.cids[cid])
      && (cid in x.t.cids && !x.t.cids[cid].IsValid() ==>
            exists s, r :: s != r && Seen(x.trail, cid, s) && Seen(x.trail, cid, r))
      && (cid !in x.t.cids && (exists s :: Seen(x.trail, cid, s)) ==> |x.t.cids| == 32)
      && (cid in t.cids && !t.cids[cid].IsValid() ==> cid in x.t.cids && !x.t.cids[cid].IsValid())
  {
    RunInv(states, steps, i);
    RunGrows(states, steps, i, j);
    BornEvolves(states[i].targets[l], states[j].targets[l]);
    BornInv(states[j].targets[l]);
    assert EntryOk(states[j].targets[l].t.cids, states[j].targets[l].trail, cid);
  }

  /** In every run, a target stores a warm preference at most once, and then for the winner
      the datagram was sent to, named by the only source that ever used the carried ID. */
  lemma WarmPreferenceOnce(states: seq<Conn>, steps: seq<Step>, i: nat, l: AddrPort)
    requires IsRun(states, steps) && i < |states| && l in states[i].targets
    ensures var trail := states[i].targets[l].trail;
      && (forall p, q :: 0 <= p < q < |trail| && IsStore(trail[p]) ==> !IsStore(trail[q]))
      && (forall p :: 0 <= p < |trail| && IsStore(trail[p]) ==> Justified(trail, p))
  {
    RunInv(states, steps, i);
    BornInv(states[i].targets[l]);
  }

  // ---------------------------------------------------------------- moving winners

  /** The destination ID in the long header of a datagram written to `l`. */
  function NamedBy(step: Step, l: AddrPort): Option<seq<byte>> {
    if step.Write? && step.addr.Unmap() == l && LongHeaderIds(step.payload).Some?
    then Some(LongHeaderIds(step.payload).value.0)
    else None
  }

  /** The step names another address than the winner by a connection ID of the table. */
  predicate Redirects(t: Target, step: Step, l: AddrPort) {
    var cid := NamedBy(step, l);
    cid.Some? && cid.value in t.cids && t.cids[cid.value].IsValid() && t.cids[cid.value] != t.winner
  }

  /** Only a write moves a winner, and only by the ID it carries. */
  lemma WinnerAfter(x: Tracked, op: UdpTargetSafety.Op)
    requires x.t.winner.IsValid()
    ensures Apply(x, op).t.winner ==
      if op.Send? then NoteQuic(x.t, LongHeaderIds(op.payload), op.payload).winner else x.t.winner
  {
    if op.Send? {
      NoteEffect(x.t, LongHeaderIds(op.payload), op.payload);
      SettleEffect(NoteQuic(x.t, LongHeaderIds(op.payload), op.payload), |op.payload|, op.sentAt);
    }
  }

  lemma {:induction false} ScanKeepsWinner(
    targets: map<AddrPort, Tracked>, refs: seq<AddrPort>, source: AddrPort, data: Payload, now: int, l: AddrPort)
    requires l in targets && targets[l].t.winner.IsValid()
    ensures var after := Scan(targets, refs, source, data, now).0;
      l in after && after[l].t.winner == targets[l].t.winner
    decreases |refs|
  {
    if refs != [] {
      if refs[0] !in targets {
        ScanKeepsWinner(targets, refs[1..], source, data, now, l);
      } else {
        var x, op := targets[refs[0]], Receive(source, data, now);
        if x.t.winner.IsValid() {
          WinnerAfter(x, op);
        }
        ScanKeepsWinner(targets[refs[0] := Apply(x, op)], refs[1..], source, data, now, l);
      }
    }
  }

  lemma StepMovesWinner(s: Conn, step: Step, l: AddrPort)
    requires l in s.targets && s.targets[l].t.winner.IsValid()
    ensures l in Next(s, step).targets
    ensures var (t, w) := (s.targets[l].t, Next(s, step).targets[l].t.winner);
      w == if Redirects(t, step, l) then t.cids[NamedBy(step, l).value] else t.winner
  {
    match step
    case FailSends(logical, failed, settle) =>
      UpdateMovesWinner(s, logical, UdpTargetSafety.FailSends(failed, settle), l);
    case Write(addr, payload, now) => UpdateMovesWinner(s, addr.Unmap(), Send(payload, now), l);
    case Read(from, data, now) => ReadKeepsWinner(s, from, data, now, l);
    case StartCollecting(logical) => UpdateMovesWinner(s, logical, UdpTargetSafety.StartCollecting, l);
    case StopCollecting(logical) => UpdateMovesWinner(s, logical, UdpTargetSafety.StopCollecting, l);
    case _ =>
  }

  lemma UpdateMovesWinner(s: Conn, logical: AddrPort, op: UdpTargetSafety.Op, l: AddrPort)
    requires l in s.targets && s.targets[l].t.winner.IsValid()
    ensures l in Update(s, logical, op).targets
    ensures var (t, w) := (s.targets[l].t, Update(s, logical, op).targets[l].t.winner);
      w == if logical == l && op.Send? then NoteQuic(t, LongHeaderIds(op.payload), op.payload).winner else t.winner
  {
    WinnerAfter(s.targets[l], op);
  }

  lemma ReadKeepsWinner(s: Conn, from: NetAddr, data: Payload, now: int, l: AddrPort)
    requires l in s.targets && s.targets[l].t.winner.IsValid()
    ensures var u := ReadStep(s, from, data, now); l in u.targets && u.targets[l].t.winner == s.targets[l].t.winner
  {
    if from.Udp? {
      var source := from.at.Unmap();
      ScanKeepsWinner(s.targets, TargetsOf(s.sources, source), source, data, now, l);
    }
  }

  /** In every run, a target that has a winner changes it exactly when a datagram written to it
      carries a destination ID that the table gives to another address, and then to that address,
      the only one that any reply with that ID came from. */
  lemma WinnerMoves(states: seq<Conn>, steps: seq<Step>, i: nat, l: AddrPort)
    requires IsRun(states, steps) && i < |steps| && l in states[i].targets && states[i].targets[l].t.winner.IsValid()
    ensures l in states[i + 1].targets
    ensures var (x, w) := (states[i].targets[l], states[i + 1].targets[l].t.winner);
      && (w != x.t.winner <==> Redirects(x.t, steps[i], l))
      && (w != x.t.winner ==> w.IsValid() && Seen(x.trail, NamedBy(steps[i], l).value, w))
      && (w != x.t.winner ==> forall s :: Seen(x.trail, NamedBy(steps[i], l).value, s) ==> s == w)
  {
    var x := states[i].targets[l];
    StepMovesWinner(states[i], steps[i], l);
    if Redirects(x.t, steps[i], l) {
      RunInv(states, steps, i);
      BornInv(x);
      assert EntryOk(x.t.cids, x.trail, NamedBy(steps[i], l).value);
    }
  }

  // ---------------------------------------------------------------- races end

  /** In every run, a write leaves its target with a winner exactly when it had one, the write
      named one by its connection ID, or the race is overdue and some candidate is live. */
  lemma SettledByWrite(states: seq<Conn>, steps: seq<Step>, i: nat, l: AddrPort)
    requires IsRun(states, steps) && i < |steps| && l in states[i].targets
    requires steps[i].Write? && steps[i].addr.Unmap() == l
    ensures l in states[i + 1].targets
    ensures var (t, u) := (states[i].targets[l].t, states[i + 1].targets[l].t);
      var named := NoteQuic(t, LongHeaderIds(steps[i].payload), steps[i].payload);
      && (u.winner.IsValid() <==>
            named.winner.IsValid() || (t.live != {} && Overdue(named, |steps[i].payload|, steps[i].now)))
      && (u.winner.IsValid() ==> if named.winner.IsValid() then u.winner == named.winner else u.winner in t.live)
  {
    RunInv(states, steps, i);
    var x := states[i].targets[l];
    BornInv(x);
    WriteSettles(x.t, LongHeaderIds(steps[i].payload), steps[i].payload, steps[i].now);
  }

  /** A race that a reply of `source` would settle: started, past its window, somebody live. */
  predicate Ripe(t: Target, now: int) {
    t.winner.IsValid() || (t.live != {} && PastWindow(t, now))
  }

  lemma ExamineRipens(x: Tracked, source: AddrPort, data: Payload, now: int)
    requires Inv(x) && source in x.t.candidates && Ripe(x.t, now)
    ensures Apply(x, Receive(source, data, now)).t.winner.IsValid()
  {
    if x.t.started.Some? {
      ReplySettles(x.t, source, LongHeaderIds(data), now);
    }
  }

  lemma {:induction false} ScanSettles(
    targets: map<AddrPort, Tracked>, refs: seq<AddrPort>, source: AddrPort, data: Payload, now: int, l: AddrPort)
    requires AllBorn(targets) && l in targets && Ripe(targets[l].t, now) && (l in refs || targets[l].t.winner.IsValid())
    requires forall r :: r in refs ==> r in targets && source in targets[r].t.candidates
    ensures var (after, hit) := Scan(targets, refs, source, data, now);
      l in after && (after[l].t.winner.IsValid() || (hit.Some? && hit.value != l))
    decreases |refs|
  {
    if refs != [] {
      var x := targets[refs[0]];
      assert refs[0] in refs;
      BornInv(x);
      var y := Apply(x, Receive(source, data, now));
      var more := targets[refs[0] := y];
      ReceiveKeepsBorn(x, source, data, now);
      if refs[0] == l {
        ExamineRipens(x, source, data, now);
      }
      if !Examine(x.t, source, LongHeaderIds(data), now).1 {
        assert forall r :: r in refs[1..] ==> r in refs;
        assert l in refs ==> l == refs[0] || l in refs[1..];
        ScanSettles(more, refs[1..], source, data, now, l);
      }
    }
  }

  lemma ReceiveKeepsBorn(x: Tracked, source: AddrPort, data: Payload, now: int)
    requires Born(x) && source in x.t.candidates
    ensures Born(Apply(x, Receive(source, data, now)))
    ensures Apply(x, Receive(source, data, now)).t.candidates == x.t.candidates
  {
    var op := Receive(source, data, now);
    ApplyKeepsCandidates(x, op);
    EvolvesByOne(x, op);
    BornEvolves(x, Apply(x, op));
  }

  /** The target that takes a reply. */
  function Taker(s: Conn, step: Step): Option<AddrPort>
    requires step.Read? && step.from.Udp?
  {
    var source := step.from.at.Unmap();
    Scan(s.targets, TargetsOf(s.sources, source), source, step.payload, step.now).1
  }

  /** In every run, a reply from a candidate of a target past its window leaves that target with a
      winner, unless another target that lists the sender takes the reply first. */
  lemma SettledByReply(states: seq<Conn>, steps: seq<Step>, i: nat, l: AddrPort)
    requires IsRun(states, steps) && i < |steps| && l in states[i].targets
    requires steps[i].Read? && steps[i].from.Udp? && steps[i].from.at.Unmap() in states[i].targets[l].t.candidates
    requires Ripe(states[i].targets[l].t, steps[i].now)
    ensures var (s, u) := (states[i], states[i + 1]);
      && l in u.targets
      && (u.targets[l].t.winner.IsValid() || (Taker(s, steps[i]).Some? && Taker(s, steps[i]).value != l))
  {
    RunInv(states, steps, i);
    ReadSettles(states[i], steps[i], l);
  }

  lemma ReadSettles(s: Conn, step: Step, l: AddrPort)
    requires AllBorn(s.targets) && Linked(s.targets, s.sources) && step.Read? && step.from.Udp? && l in s.targets
    requires step.from.at.Unmap() in s.targets[l].t.candidates && Ripe(s.targets[l].t, step.now)
    ensures l in Next(s, step).targets
    ensures Next(s, step).targets[l].t.winner.IsValid() || (Taker(s, step).Some? && Taker(s, step).value != l)
  {
    var source := step.from.at.Unmap();
    var refs := TargetsOf(s.sources, source);
    RefsAreListers(s.targets, s.sources, source, l);
    ScanSettles(s.targets, refs, source, step.payload, step.now, l);
    var (after, hit) := Scan(s.targets, refs, source, step.payload, step.now);
    assert Next(s, step).targets == after && Taker(s, step) == hit;
  }

  lemma RefsAreListers(targets: map<AddrPort, Tracked>, sources: map<AddrPort, seq<AddrPort>>, c: AddrPort, l: AddrPort)
    requires Linked(targets, sources)
    ensures forall r :: r in TargetsOf(sources, c) ==> r in targets && c in targets[r].t.candidates
    ensures l in targets && c in targets[l].t.candidates ==> l in TargetsOf(sources, c)
  {
  }

  // ---------------------------------------------------------------- unattributed datagrams

  function ShownAs(e: Surfaced): NetAddr {
    match e
    case Attributed(l, _) => Udp(l)
    case Raw(addr) => addr
  }

  /** What a target's own history says of a datagram attributed to it. */
  lemma AttributedToWinner(s: Conn, k: nat, l: AddrPort, source: AddrPort)
    requires ConnInv(s) && k < |s.surfaced| && s.surfaced[k] == Attributed(l, source)
    ensures l in s.targets
    ensures !s.targets[l].t.quic ==> s.targets[l].t.winner.IsValid() && source == s.targets[l].t.winner
  {
    assert HasDelivery(s.targets[l], source);
    BornInv(s.targets[l]);
  }

  lemma WinnerIsLinked(s: Conn, l: AddrPort)
    requires ConnInv(s) && l in s.targets && s.targets[l].t.winner.IsValid()
    ensures s.targets[l].t.winner in s.sources
  {
    WinnerIsListed(s.targets[l]);
  }

  lemma WinnerIsListed(x: Tracked)
    requires Born(x) && x.t.winner.IsValid()
    ensures x.t.winner in x.t.candidates
  {
    BornInv(x);
  }

  /** A datagram shown under a non-QUIC target's address came from its winner, except in
      exactly one case: it was passed through because its sender is nobody's candidate. */
  lemma ShownUnderLogical(s: Conn, from: NetAddr, data: Payload, now: int, l: AddrPort)
    requires ConnInv(s) && from.Udp?
    requires var u := ReadStep(s, from, data, now);
      && |u.surfaced| > |s.surfaced| && ShownAs(u.surfaced[|s.surfaced|]) == Udp(l)
      && l in u.targets && !u.targets[l].t.quic
    ensures var w := ReadStep(s, from, data, now).targets[l].t.winner;
      (w.IsValid() && from.at.Unmap() == w) <==> from.at.Unmap() in s.sources
  {
    var u := ReadStep(s, from, data, now);
    ReadKeeps(s, from, data, now);
    if u.surfaced[|s.surfaced|].Attributed? {
      AttributedToWinner(u, |s.surfaced|, l, from.at.Unmap());
    }
    if u.targets[l].t.winner.IsValid() {
      WinnerIsLinked(u, l);
    }
  }

  lemma AddedOfOne(live: set<AddrPort>, families: set<int>, c: AddrPort)
    ensures Added(live, families, [c]) == if Family(c) !in families || c in live then [] else [c]
  {
    assert [c][..0] == [];
  }

  lemma AddedOfTwo(l: AddrPort, c: AddrPort)
    requires l.addr.V6? && c.addr.V4?
    ensures Added({}, {4}, [l, c]) == [c]
  {
    assert [l, c][..1] == [l];
    AddedOfOne({}, {4}, l);
  }

  lemma LinkOfOne(c: AddrPort, l: AddrPort)
    ensures Link(map[], [c], l) == map[c := [l]]
  {
    var none: map<AddrPort, seq<AddrPort>> := map[];
    assert [c][..0] == [];
    assert Link(none, [], l) == none;
    assert TargetsOf(none, c) + [l] == [l];
  }

  /** A first registration offers the logical address itself; without a socket of its family only
      the other candidate is linked. */
  lemma FirstRegistration(l: AddrPort, c: AddrPort)
    requires l.addr.V6? && c.addr.V4?
    ensures var s := Next(Next(EMPTY, OpenSocket(4)), Step.Register(l, [l, c], "h", "d", 0));
      l in s.targets && !s.targets[l].t.winner.IsValid() && s.sources == map[c := [l]] && s.surfaced == []
      && s.families == {4} && !s.closed
  {
    var a := Next(EMPTY, OpenSocket(4));
    assert a.families == {4} && a.sources == map[] && a.targets == map[];
    AddedOfTwo(l, c);
    FreshRegistration(a, l, [l, c], [c]);
    LinkOfOne(c, l);
  }

  lemma FreshRegistration(s: Conn, l: AddrPort, cands: seq<AddrPort>, added: seq<AddrPort>)
    requires !s.closed && s.families != {} && l !in s.targets && added == Added({}, s.families, cands) && added != []
    ensures RegisterStep(s, l, cands, "h", "d", 0).0 ==
      s.(targets := s.targets[l := RegisterTracked(Tracked(NewTarget("h", "d"), []), added)],
         sources := Link(s.sources, added, l))
  {
    var x := TargetFor(s, l, "h", "d");
    assert x.t == NewTarget("h", "d") && x.t.candidates + added != [];
  }

  /** The exceptional case is reachable: the socket of the logical address's own family was opened
      only after the registration, so that the address is nobody's candidate. */
  lemma PassThroughUnderLogical(l: AddrPort, c: AddrPort)
    requires l.addr.V6? && c.addr.V4?
    ensures Admissible(Next(EMPTY, OpenSocket(4)), Step.Register(l, [l, c], "h", "d", 0))
    ensures var s := Next(Next(EMPTY, OpenSocket(4)), Step.Register(l, [l, c], "h", "d", 0));
      var u := Next(Next(s, OpenSocket(6)), Read(Udp(l), [], 0));
      l in u.targets && !u.targets[l].t.winner.IsValid() && u.surfaced == [Raw(Udp(l))]
  {
    FirstRegistration(l, c);
  }
}
