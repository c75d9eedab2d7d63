/**
 The imperative DIRECT UDP race: the packet connection object with the maps its
 methods update while they hold the mutex, each method proved to be one step of the
 race in `UdpRace`. A target is named by its logical address, under which the source
 keeps it for the whole life of the connection.
 */
module UdpRaceConn {
  import opened NetTypes
  import opened QuicHeader
  import opened UdpTarget
  import S = UdpTargetSafety
  import opened UdpRace
  import opened UdpDecisions
  import opened UdpDelivery

  method LiveCandidates(t: Target) returns (r: seq<AddrPort>)
    ensures r == LiveOf(t.candidates, t.live)
  {
    r := [];
    var i := 0;
    while i < |t.candidates|
      invariant 0 <= i <= |t.candidates|
      invariant r == LiveOf(t.candidates[..i], t.live)
    {
      assert t.candidates[..i + 1] == t.candidates[..i] + [t.candidates[i]];
      LiveOfSnoc(t.candidates[..i], t.live, t.candidates[i]);
      if t.candidates[i] in t.live {
        r := r + [t.candidates[i]];
      }
      i := i + 1;
    }
    assert t.candidates[..i] == t.candidates;
  }

  lemma Regroup(a: seq<AddrPort>, b: seq<AddrPort>, c: seq<AddrPort>)
    ensures a + b + c == a + (b + c)
  {
  }

  lemma {:induction false} LiveOfSnoc(cands: seq<AddrPort>, live: set<AddrPort>, c: AddrPort)
    ensures LiveOf(cands + [c], live) == LiveOf(cands, live) + if c in live then [c] else []
  {
    if cands != [] {
      LiveOfSnoc(cands[1..], live, c);
      assert (cands + [c])[1..] == cands[1..] + [c];
      Regroup(if cands[0] in live then [cands[0]] else [], LiveOf(cands[1..], live), if c in live then [c] else []);
    } else {
      assert ([] + [c])[1..] == [];
    }
  }

  /** Stops at the first live candidate. */
  method FirstLiveCandidate(t: Target) returns (c: AddrPort)
    ensures c == FirstLive(t)
  {
    var i := 0;
    while i < |t.candidates|
      invariant 0 <= i <= |t.candidates|
      invariant LiveOf(t.candidates[i..], t.live) == LiveOf(t.candidates, t.live)
    {
      assert t.candidates[i..][1..] == t.candidates[i + 1..];
      if t.candidates[i] in t.live {
        return t.candidates[i];
      }
      i := i + 1;
    }
    return UNSET;
  }

  method CountLive(t: Target) returns (n: nat)
    ensures n == |LiveOf(t.candidates, t.live)|
  {
    n := 0;
    var i := 0;
    while i < |t.candidates|
      invariant 0 <= i <= |t.candidates|
      invariant n + |LiveOf(t.candidates[i..], t.live)| == |LiveOf(t.candidates, t.live)|
    {
      assert t.candidates[i..][1..] == t.candidates[i + 1..];
      if t.candidates[i] in t.live {
        n := n + 1;
      }
      i := i + 1;
    }
  }

  method SettleCandidate(t: Target) returns (c: AddrPort)
    ensures c == Settled(t)
  {
    if t.responder.IsValid() && t.responder in t.live {
      return t.responder;
    }
    c := FirstLiveCandidate(t);
  }

  /** The search over the table, in any iteration order, for the ID a 1-RTT packet carries. */
  method NoteQuicWrite(t: Target, ids: Ids, payload: Payload) returns (u: Target, confirmed: bool)
    ensures u == NoteQuic(t, ids, payload) && confirmed == Confirms(t, ids, payload)
  {
    u, confirmed := t, false;
    if ids.Some? {
      u := u.(quic := true);
      if ids.value.0 in u.cids && u.cids[ids.value.0].IsValid() {
        u := u.(winner := u.cids[ids.value.0]);
      }
    } else if t.quic && t.winner.IsValid() && !t.quicConfirmed {
      var unseen := t.cids.Keys;
      while unseen != {} && !confirmed
        invariant unseen <= t.cids.Keys
        invariant !confirmed ==>
          forall cid :: cid in t.cids.Keys - unseen ==> t.cids[cid] != t.winner || !Carries(payload, cid)
        invariant confirmed ==> Confirms(t, ids, payload)
        decreases |unseen|
      {
        var cid :| cid in unseen;
        unseen := unseen - {cid};
        if t.cids[cid] == t.winner && Carries(payload, cid) {
          confirmed := true;
        }
      }
      if confirmed {
        u := u.(quicConfirmed := true);
      }
    }
  }

  method SettleWrite(t: Target, size: nat, now: int) returns (u: Target)
    ensures u == SettleOnWrite(t, size, now)
  {
    u := t;
    if !t.winner.IsValid() && t.started.Some? {
      if t.quic {
        if now - t.started.value >= QUIC_WINDOW {
          var c := SettleCandidate(t);
          u := t.(winner := c);
        }
      } else if now - t.started.value >= RACE_WINDOW || t.datagrams >= RACE_DATAGRAMS
             || t.bytes + size * |t.candidates| > RACE_BYTES {
        var c := FirstLiveCandidate(t);
        u := t.(winner := c);
      }
    }
  }

  /** The reply is evidence: its server ID is recorded, and the first responder remembered. */
  method RecordReply(t: Target, source: AddrPort, ids: Ids) returns (u: Target)
    ensures u == NoteReply(t, source, ServerCid(t, ids))
  {
    u := t;
    if t.quic && ids.Some? && ids.value.1 != [] {
      var cid := ids.value.1;
      if cid in u.cids {
        if !u.cids[cid].IsValid() || u.cids[cid] != source {
          u := u.(cids := u.cids[cid := UNSET]);
        }
      } else if |u.cids| < SERVER_CID_LIMIT {
        u := u.(cids := u.cids[cid := source]);
      }
    }
    if source in u.live && !u.responder.IsValid() {
      u := u.(responder := source);
    }
  }

  method SettleReply(t: Target, now: int) returns (u: Target)
    requires t.started.Some?
    ensures u == SettleOnReply(t, now)
  {
    u := t;
    if !t.winner.IsValid() {
      if t.quic {
        if now - t.started.value >= QUIC_WINDOW {
          var c := SettleCandidate(t);
          u := t.(winner := c);
        }
      } else if now - t.started.value >= RACE_WINDOW {
        var c := FirstLiveCandidate(t);
        u := t.(winner := c);
      }
    }
  }

  /** The body of the reader's loop for one target. */
  method ExamineReply(t: Target, source: AddrPort, ids: Ids, now: int) returns (u: Target, delivered: bool)
    ensures (u, delivered) == Examine(t, source, ids, now)
  {
    u, delivered := t, false;
    if t.started.None? {
      return;
    }
    u := RecordReply(t, source, ids);
    u := SettleReply(u, now);
    if u.winner.IsValid() {
      delivered := u.winner == source;
    } else if u.quic {
      delivered := true;
    } else if source in u.live {
      u, delivered := u.(winner := source), true;
    }
  }

  /** Makes the usable new candidates live and links each of them to the target. */
  lemma AddedMore(live: set<AddrPort>, families: set<int>, cands: seq<AddrPort>, c: AddrPort)
    ensures var r := Added(live, families, cands);
      Added(live, families, cands + [c]) == if Family(c) !in families || c in live || c in r then r else r + [c]
  {
    assert (cands + [c])[..|cands|] == cands;
  }

  lemma LinkMore(sources: map<AddrPort, seq<AddrPort>>, added: seq<AddrPort>, c: AddrPort, logical: AddrPort)
    ensures var linked := Link(sources, added, logical);
      Link(sources, added + [c], logical) == linked[c := TargetsOf(linked, c) + [logical]]
  {
    assert (added + [c])[..|added|] == added;
  }

  method LinkCandidates(t: Target, families: set<int>, sources: map<AddrPort, seq<AddrPort>>,
                        cands: seq<AddrPort>, logical: AddrPort)
    returns (candidates: seq<AddrPort>, live: set<AddrPort>, linked: map<AddrPort, seq<AddrPort>>, added: seq<AddrPort>)
    ensures added == Added(t.live, families, cands)
    ensures candidates == t.candidates + added
    ensures live == t.live + set c | c in added
    ensures linked == Link(sources, added, logical)
  {
    candidates, live, linked, added := t.candidates, t.live, sources, [];
    var i := 0;
    while i < |cands|
      invariant 0 <= i <= |cands|
      invariant Progress(t, families, sources, cands[..i], logical, candidates, live, linked, added)
    {
      var c := cands[i];
      assert cands[..i + 1] == cands[..i] + [c];
      ProgressMore(t, families, sources, cands[..i], cands[..i + 1], logical, candidates, live, linked, added, c);
      if Family(c) in families && c !in live {
        candidates, live := candidates + [c], live + {c};
        linked := linked[c := TargetsOf(linked, c) + [logical]];
        added := added + [c];
      }
      i := i + 1;
    }
    assert cands[..i] == cands;
  }

  /** What the loop has made of the candidates so far. */
  predicate Progress(t: Target, families: set<int>, sources: map<AddrPort, seq<AddrPort>>, cands: seq<AddrPort>,
                     logical: AddrPort, candidates: seq<AddrPort>, live: set<AddrPort>,
                     linked: map<AddrPort, seq<AddrPort>>, added: seq<AddrPort>)
  {
    && added == Added(t.live, families, cands) && linked == Link(sources, added, logical)
    && candidates == t.candidates + added && live == t.live + set c | c in added
  }

  lemma ProgressMore(t: Target, families: set<int>, sources: map<AddrPort, seq<AddrPort>>, cands: seq<AddrPort>,
                     more: seq<AddrPort>, logical: AddrPort, candidates: seq<AddrPort>, live: set<AddrPort>,
                     linked: map<AddrPort, seq<AddrPort>>, added: seq<AddrPort>, c: AddrPort)
    requires more == cands + [c] && Progress(t, families, sources, cands, logical, candidates, live, linked, added)
    ensures if Family(c) in families && c !in live
            then Progress(t, families, sources, more, logical, candidates + [c], live + {c},
                          linked[c := TargetsOf(linked, c) + [logical]], added + [c])
            else Progress(t, families, sources, more, logical, candidates, live, linked, added)
  {
    AddedMore(t.live, families, cands, c);
    if Family(c) in families && c !in live {
      LinkMore(sources, added, c, logical);
      OneMore(t.candidates, t.live, added, c);
    }
  }

  lemma OneMore(candidates: seq<AddrPort>, live: set<AddrPort>, added: seq<AddrPort>, c: AddrPort)
    ensures candidates + added + [c] == candidates + (added + [c])
    ensures live + (set x | x in added) + {c} == live + set x | x in added + [c]
  {
  }

  /** Replaying one more payload. */
  lemma ReplayNext(bytes: nat, replay: seq<Payload>, k: nat, n: nat)
    requires k < |replay| && bytes + |replay[k]| * n <= RACE_BYTES
    ensures Replayed(bytes, replay[k..], n) == 1 + Replayed(bytes + |replay[k]| * n, replay[k + 1..], n)
    ensures ReplayCost(replay[..k + 1], n) == ReplayCost(replay[..k], n) + |replay[k]| * n
  {
    assert replay[k..][1..] == replay[k + 1..];
    ReplayCostSnoc(replay[..k], replay[k], n);
    assert replay[..k + 1] == replay[..k] + [replay[k]];
  }

  class RacePacketConn {
    var closed: bool
    var families: set<int>
    var targets: map<AddrPort, S.Tracked>
    var sources: map<AddrPort, seq<AddrPort>>
    var surfaced: seq<Surfaced>

    ghost function View(): Conn
      reads this
    {
      Conn(closed, families, targets, sources, surfaced)
    }

    constructor ()
      ensures View() == EMPTY
    {
      closed, families, targets, sources, surfaced := false, {}, map[], map[], [];
    }

    /** The second locked section of `register`, with the candidates it links and the
        opening datagrams it will replay to them. */
    method Register(logical: AddrPort, cands: seq<AddrPort>, host: string, adapter: string, now: int)
      returns (outcome: Outcome, added: seq<AddrPort>, replay: seq<Payload>)
      modifies this
      ensures (View(), outcome) == RegisterStep(old(View()), logical, cands, host, adapter, now)
      ensures outcome == Closed <==> old(closed)
      ensures outcome == NoSocket <==> !old(closed) && old(families) == {}
      ensures outcome == NoCandidate ==> View() == old(View())
      ensures outcome == Done && logical !in old(targets) ==> logical in targets && targets[logical].t.candidates != []
      ensures View() == old(View()) ==> replay == []
      ensures View() != old(View()) ==>
        var t := TargetFor(old(View()), logical, host, adapter).t;
        added == Added(t.live, families, cands) && replay == t.replay[..Replayed(t.bytes, t.replay, |added|)]
    {
      added, replay := [], [];
      if closed {
        return Closed, added, replay;
      }
      if families == {} {
        return NoSocket, added, replay;
      }
      var x := if logical in targets then targets[logical] else S.Tracked(NewTarget(host, adapter), []);
      if !AcceptsCandidates(x.t, host, adapter, now) {
        return Done, added, replay;
      }
      var y, linked;
      y, linked, added, replay := RegisterTarget(x, families, sources, cands, logical);
      if y.t.candidates == [] {
        return NoCandidate, added, [];
      }
      sources := linked;
      targets := targets[logical := y];
      assert |targets[logical].trail| == |x.trail| + 1;
      outcome := Done;
    }

    /** What a registration makes of its target. */
    static method RegisterTarget(x: S.Tracked, families: set<int>, sources: map<AddrPort, seq<AddrPort>>,
                                 cands: seq<AddrPort>, logical: AddrPort)
      returns (y: S.Tracked, linked: map<AddrPort, seq<AddrPort>>, added: seq<AddrPort>, replay: seq<Payload>)
      ensures added == Added(x.t.live, families, cands) && y == S.RegisterTracked(x, added)
      ensures y.t.candidates == x.t.candidates + added && |y.trail| == |x.trail| + 1
      ensures linked == Link(sources, added, logical)
      ensures replay == x.t.replay[..Replayed(x.t.bytes, x.t.replay, |added|)]
    {
      var candidates, live;
      candidates, live, linked, added := LinkCandidates(x.t, families, sources, cands, logical);
      var t;
      t, replay := TakeReplay(x.t.(candidates := candidates, live := live), |added|);
      y := S.Tracked(t, x.trail + [S.ReplayedBytes(t.bytes - x.t.bytes)]);
    }

    static method ReplayLoop(spent: nat, replay: seq<Payload>, n: nat) returns (k: nat, bytes: nat)
      ensures k == Replayed(spent, replay, n) && bytes == spent + ReplayCost(replay[..k], n)
    {
      k, bytes := 0, spent;
      while k < |replay|
        invariant 0 <= k <= |replay|
        invariant bytes == spent + ReplayCost(replay[..k], n)
        invariant k + Replayed(bytes, replay[k..], n) == Replayed(spent, replay, n)
      {
        var cost := |replay[k]| * n;
        if bytes + cost > RACE_BYTES {
          break;
        }
        ReplayNext(bytes, replay, k, n);
        k, bytes := k + 1, bytes + cost;
      }
    }

    /** The bounded opening datagrams that a late candidate still gets. */
    static method TakeReplay(t: Target, n: nat) returns (u: Target, replay: seq<Payload>)
      ensures var k := Replayed(t.bytes, t.replay, n);
        replay == t.replay[..k] && u == t.(bytes := t.bytes + ReplayCost(t.replay[..k], n))
    {
      var k, bytes := ReplayLoop(t.bytes, t.replay, n);
      u, replay := t.(bytes := bytes), t.replay[..k];
    }

    /** What a write makes of its target, and where its datagram goes. */
    static method DecideWrite(x: S.Tracked, payload: Payload, now: int) returns (y: S.Tracked, d: Decision)
      ensures y == S.SendTracked(x, LongHeaderIds(payload), payload, now)
      ensures d == UdpTarget.Write(x.t, LongHeaderIds(payload), payload, now).1
      ensures y.trail == x.trail + [S.Wrote(payload, d)] && Sends(y.t, d)
    {
      WriteSends(x.t, payload, now);
      var ids := LongHeaderIds(payload);
      var t, confirmed := NoteQuicWrite(x.t, ids, payload);
      t := SettleWrite(t, |payload|, now);
      if t.winner.IsValid() {
        t := t.(replay := [], replayBytes := 0);
        d := ToWinner(t.winner, if confirmed then Some(x.t.winner.addr) else None);
      } else {
        var copies := LiveCandidates(t);
        t := FanOut(t, payload, now);
        d := ToAll(copies);
      }
      y := S.Tracked(t, x.trail + [S.Wrote(payload, d)]);
    }

    method WriteTo(addr: AddrPort, payload: Payload, now: int) returns (decision: Option<Decision>)
      modifies this
      ensures View() == Next(old(View()), Step.Write(addr, payload, now))
      ensures decision ==
        if addr.Unmap() in old(targets)
        then Some(UdpTarget.Write(old(targets)[addr.Unmap()].t, LongHeaderIds(payload), payload, now).1)
        else None
      ensures var l := addr.Unmap(); decision.Some? ==>
        && l in old(targets) && l in targets && Sends(targets[l].t, decision.value)
        && targets[l].trail == old(targets)[l].trail + [S.Wrote(payload, decision.value)]
    {
      var logical := addr.Unmap();
      if logical !in targets {
        return None;
      }
      var y, d := DecideWrite(targets[logical], payload, now);
      targets := targets[logical := y];
      decision := Some(d);
    }

    /** The section after a send that failed for some candidates. */
    method FailSends(logical: AddrPort, failed: seq<AddrPort>, settle: bool)
      requires logical in targets
      modifies this
      ensures View() == Next(old(View()), Step.FailSends(logical, (set c | c in failed), settle))
    {
      var x := targets[logical];
      var t := x.t;
      var i := 0;
      while i < |failed|
        invariant 0 <= i <= |failed|
        invariant t == x.t.(live := x.t.live - set c | c in failed[..i])
      {
        t := t.(live := t.live - {failed[i]});
        i := i + 1;
      }
      ghost var gone := set c | c in failed;
      assert failed[..i] == failed && (|failed| > 0 ==> failed[0] in gone);
      assert (set c | c in failed[..i]) == gone;
      if |failed| > 0 && settle && !t.quic && !t.winner.IsValid() {
        var n := CountLive(t);
        if n == 1 {
          var c := FirstLiveCandidate(t);
          t := t.(winner := c);
        }
      }
      assert t == Fail(x.t, gone, settle);
      targets := targets[logical := x.(t := t)];
    }

    /** The locked section of `WaitReadFrom` for one received datagram. */
    method HandleReply(from: NetAddr, data: Payload, now: int)
      modifies this
      ensures View() == Next(old(View()), Step.Read(from, data, now))
      ensures (from.Udp? && TargetsOf(old(sources), from.at.Unmap()) != [] ==> from.at.Unmap().IsValid()) ==>
        HandsUp(old(View()), View(), from)
    {
      if from.Udp? && TargetsOf(sources, from.at.Unmap()) != [] ==> from.at.Unmap().IsValid() {
        ReadHandsUp(View(), from, data, now);
      }
      if from.Other? {
        surfaced := surfaced + [Raw(from)];
        return;
      }
      var source := from.at.Unmap();
      var refs := TargetsOf(sources, source);
      var ids := LongHeaderIds(data);
      var hit: Option<AddrPort> := None;
      var i := 0;
      while i < |refs| && hit.None?
        modifies this`targets
        invariant 0 <= i <= |refs|
        invariant Scan(old(targets), refs, source, data, now) ==
          if hit.Some? then (targets, hit) else Scan(targets, refs[i..], source, data, now)
      {
        var l := refs[i];
        assert refs[i..][1..] == refs[i + 1..];
        if l in targets {
          var x := targets[l];
          var t, delivered := ExamineReply(x.t, source, ids, now);
          if x.t.started.Some? {
            var e := S.Reply(source, source in x.t.live, ServerCid(x.t, ids), delivered);
            targets := targets[l := S.Tracked(t, x.trail + [e])];
          } else {
            assert targets == targets[l := x];
          }
          if delivered {
            hit := Some(l);
          }
        }
        i := i + 1;
      }
      surfaced := surfaced + Reported(from, source, source in sources, hit);
    }
  }

  lemma {:induction false} ReplayCostSnoc(replay: seq<Payload>, last: Payload, n: nat)
    ensures ReplayCost(replay + [last], n) == ReplayCost(replay, n) + |last| * n
  {
    if replay != [] {
      ReplayCostSnoc(replay[1..], last, n);
      assert (replay + [last])[1..] == replay[1..] + [last];
    } else {
      assert replay + [last] == [last];
    }
  }

  /** The valid addresses, unmapped, at their first places. */
  function Unique(ips: seq<Addr>): seq<Addr> {
    if ips == [] then []
    else
      var front, ip := Unique(ips[..|ips| - 1]), ips[|ips| - 1].Unmap();
      if ip.IsValid() && ip !in front then front + [ip] else front
  }

  /** Each once, and none of them lost. */
  lemma {:induction false} UniqueIs(ips: seq<Addr>)
    ensures forall i, j :: 0 <= i < j < |Unique(ips)| ==> Unique(ips)[i] != Unique(ips)[j]
    ensures forall a :: a in Unique(ips) <==> a.IsValid() && exists i :: 0 <= i < |ips| && ips[i].Unmap() == a
  {
    if ips != [] {
      var front := ips[..|ips| - 1];
      UniqueIs(front);
      assert forall i :: 0 <= i < |front| ==> front[i] == ips[i];
    }
  }

  /** In the order of their first places. */
  lemma {:induction false} UniquePlaces(ips: seq<Addr>) returns (at: seq<nat>)
    ensures AtFirstPlaces(ips, true, Unique(ips), at)
  {
    if ips == [] {
      at := [];
    } else {
      var front, ip := ips[..|ips| - 1], ips[|ips| - 1];
      var before := UniquePlaces(front);
      assert ips == front + [ip];
      at := UniquePlaceMore(front, ip, ips, before);
    }
  }

  lemma UniquePlaceMore(front: seq<Addr>, ip: Addr, ips: seq<Addr>, before: seq<nat>) returns (at: seq<nat>)
    requires ips == front + [ip] && AtFirstPlaces(front, true, Unique(front), before)
    ensures AtFirstPlaces(ips, true, Unique(ips), at)
  {
    assert ips[..|ips| - 1] == front && ips[|ips| - 1] == ip;
    at := OnePlaceMore(front, ip, true, Unique(front), before, Unique(ips));
  }

  method UniqueIps(ips: seq<Addr>) returns (unique: seq<Addr>)
    ensures unique == Unique(ips)
  {
    unique := [];
    for k := 0 to |ips|
      invariant unique == Unique(ips[..k])
    {
      assert ips[..k + 1][..k] == ips[..k];
      var ip := ips[k].Unmap();
      if ip.IsValid() && ip !in unique {
        unique := unique + [ip];
      }
    }
    assert ips[..|ips|] == ips;
  }

  /** One candidate for each unique address, in order, all fit for a registration. */
  method CandidatesOf(ips: seq<Addr>, port: nat) returns (candidates: seq<AddrPort>)
    ensures |candidates| == |Unique(ips)|
    ensures forall i :: 0 <= i < |candidates| ==>
      candidates[i] == AddrPort(Unique(ips)[i], port) && candidates[i].IsValid()
  {
    var unique := UniqueIps(ips);
    UniqueIs(ips);
    candidates := [];
    for k := 0 to |unique|
      invariant |candidates| == k
      invariant forall i :: 0 <= i < k ==> candidates[i] == AddrPort(unique[i], port) && candidates[i].IsValid()
    {
      assert unique[k] in unique;
      candidates := candidates + [AddrPort(unique[k], port)];
    }
  }
}
