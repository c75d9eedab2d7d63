/**
 What every sequence of mutex-held sections keeps for one target of the DIRECT UDP
 race. `Tracked` pairs a target with its history, and every property below compares
 the target's few counters and tables with that complete history.
 */
module UdpTargetSafety {
  import opened NetTypes
  import opened QuicHeader
  import opened UdpTarget

  datatype Event =
    | Wrote(payload: Payload, decision: Decision)
    | ReplayedBytes(cost: nat)
    | Reply(source: AddrPort, live: bool, cid: Option<seq<byte>>, delivered: bool)

  datatype Tracked = Tracked(t: Target, trail: seq<Event>)

  datatype Op =
    | Register(cands: seq<AddrPort>, families: set<int>)
    | FailSends(failed: set<AddrPort>, settle: bool)
    | Send(payload: Payload, sentAt: int)
    | Receive(source: AddrPort, data: Payload, readAt: int)
    | StartCollecting
    | StopCollecting

  /** What the callers guarantee: valid addresses, replies only from listed candidates,
      and `register` reaching the target only while it still races. */
  predicate Enabled(x: Tracked, op: Op) {
    match op
    case Register(cands, _) => !x.t.winner.IsValid() && forall c :: c in cands ==> c.IsValid()
    case FailSends(_, settle) => settle ==> x.t.started.Some?
    case Receive(source, _, _) => source in x.t.candidates
    case _ => true
  }

  function RegisterTracked(x: Tracked, added: seq<AddrPort>): Tracked {
    var u := AddCandidates(x.t, added);
    Tracked(u, x.trail + [ReplayedBytes(u.bytes - x.t.bytes)])
  }

  function SendTracked(x: Tracked, ids: Ids, payload: Payload, now: int): Tracked {
    var (u, d) := Write(x.t, ids, payload, now);
    Tracked(u, x.trail + [Wrote(payload, d)])
  }

  /** A target that has not sent anything yet is skipped by the reader. */
  function ReceiveTracked(x: Tracked, source: AddrPort, ids: Ids, now: int): Tracked {
    if x.t.started.None? then x
    else
      var (u, delivered) := Examine(x.t, source, ids, now);
      Tracked(u, x.trail + [Reply(source, source in x.t.live, ServerCid(x.t, ids), delivered)])
  }

  function Apply(x: Tracked, op: Op): Tracked {
    match op
    case Register(cands, families) => RegisterTracked(x, Added(x.t.live, families, cands))
    case FailSends(failed, settle) => x.(t := Fail(x.t, failed, settle))
    case Send(payload, now) => SendTracked(x, LongHeaderIds(payload), payload, now)
    case Receive(source, data, now) => ReceiveTracked(x, source, LongHeaderIds(data), now)
    case StartCollecting => x.(t := x.t.(collecting := true))
    case StopCollecting => x.(t := x.t.(collecting := false, replay := [], replayBytes := 0))
  }

  // ---------------------------------------------------------------- history

  predicate IsFanOut(e: Event) {
    e.Wrote? && e.decision.ToAll?
  }

  /** Application datagrams that were copied to at least one candidate. */
  function FanOuts(trail: seq<Event>): nat {
    if trail == [] then 0
    else FanOuts(trail[..|trail| - 1]) +
         var e := trail[|trail| - 1];
         if IsFanOut(e) && e.decision.copies != [] then 1 else 0
  }

  function Cost(e: Event): nat {
    match e
    case Wrote(p, ToAll(copies)) => |p| * |copies|
    case ReplayedBytes(cost) => cost
    case _ => 0
  }

  /** Bytes handed to the sockets by fan-outs and replays. */
  function RaceBytes(trail: seq<Event>): nat {
    if trail == [] then 0 else RaceBytes(trail[..|trail| - 1]) + Cost(trail[|trail| - 1])
  }

  /** Size of the first fan-out, zero before it. */
  function FirstFanOut(trail: seq<Event>): nat {
    if trail == [] then 0
    else if IsFanOut(trail[0]) then Cost(trail[0])
    else FirstFanOut(trail[1..])
  }

  /** Every source whose reply carried `cid`. */
  ghost predicate Seen(trail: seq<Event>, cid: seq<byte>, source: AddrPort) {
    exists i :: 0 <= i < |trail| && trail[i].Reply? && trail[i].cid == Some(cid) && trail[i].source == source
  }

  predicate IsStore(e: Event) {
    e.Wrote? && e.decision.ToWinner? && e.decision.store.Some?
  }

  // ---------------------------------------------------------------- invariants

  predicate Shape(t: Target) {
    && (forall c :: c in t.candidates ==> c.IsValid())
    && (forall c :: c in t.live ==> c in t.candidates)
    && (t.winner.IsValid() ==> t.winner in t.candidates)
    && (t.responder.IsValid() ==> t.responder in t.candidates)
    && (forall cid :: cid in t.cids && t.cids[cid].IsValid() ==> t.cids[cid] in t.candidates)
    && (t.started.None? ==> t.datagrams == 0 && t.bytes == 0 && t.replay == [] && !t.winner.IsValid() && !t.quic)
    && (t.cids != map[] ==> t.quic)
  }

  /** A sent-to-all write exists in the trail exactly when the race has started. */
  predicate StartedByFanOut(x: Tracked) {
    x.t.started.Some? <==> exists i :: 0 <= i < |x.trail| && IsFanOut(x.trail[i])
  }

  predicate Budget(x: Tracked) {
    && FanOuts(x.trail) <= x.t.datagrams
    && RaceBytes(x.trail) == x.t.bytes
    && (!x.t.quic ==> FanOuts(x.trail) <= RACE_DATAGRAMS)
    && (!x.t.quic ==> x.t.bytes <= RACE_BYTES || x.t.bytes <= FirstFanOut(x.trail))
  }

  /** The entry for `cid` says exactly what the whole history of examined replies says. */
  ghost predicate EntryOk(cids: map<seq<byte>, AddrPort>, trail: seq<Event>, cid: seq<byte>) {
    && (forall s :: Seen(trail, cid, s) ==> s.IsValid() && (cid in cids || |cids| == SERVER_CID_LIMIT))
    && (cid in cids && cids[cid].IsValid() ==>
          Seen(trail, cid, cids[cid]) && forall s :: Seen(trail, cid, s) ==> s == cids[cid])
    && (cid in cids && !cids[cid].IsValid() ==>
          exists s, r :: s != r && Seen(trail, cid, s) && Seen(trail, cid, r))
  }

  ghost predicate CidTable(cids: map<seq<byte>, AddrPort>, trail: seq<Event>) {
    && |cids| <= SERVER_CID_LIMIT
    && forall cid :: EntryOk(cids, trail, cid)
  }

  predicate DeliveredByWinner(x: Tracked) {
    !x.t.quic ==>
      forall i :: 0 <= i < |x.trail| && x.trail[i].Reply? && x.trail[i].delivered ==>
        x.t.winner.IsValid() && x.trail[i].source == x.t.winner
  }

  /** The store recorded at `i` is justified by the replies examined before it. */
  ghost predicate Justified(trail: seq<Event>, i: nat)
    requires i < |trail| && IsStore(trail[i])
  {
    var d := trail[i].decision;
    && d.store == Some(d.to.addr)
    && LongHeaderIds(trail[i].payload).None?
    && exists cid :: Carries(trail[i].payload, cid) && Seen(trail[..i], cid, d.to)
                     && forall s :: Seen(trail[..i], cid, s) ==> s == d.to
  }

  ghost predicate WarmOnce(x: Tracked) {
    && (forall i, j :: 0 <= i < j < |x.trail| && IsStore(x.trail[i]) ==> !IsStore(x.trail[j]))
    && (x.t.quicConfirmed <==> exists i :: 0 <= i < |x.trail| && IsStore(x.trail[i]))
    && (forall i :: 0 <= i < |x.trail| && IsStore(x.trail[i]) ==> Justified(x.trail, i))
  }

  ghost predicate Inv(x: Tracked) {
    && Shape(x.t)
    && StartedByFanOut(x)
    && Budget(x)
    && CidTable(x.t.cids, x.trail)
    && DeliveredByWinner(x)
    && WarmOnce(x)
  }

  lemma InitInv(host: string, adapter: string)
    ensures Inv(Tracked(NewTarget(host, adapter), []))
  {
  }

  // ---------------------------------------------------------------- each section keeps the shape

  lemma ShapeRegister(t: Target, added: seq<AddrPort>)
    requires Shape(t) && !t.winner.IsValid()
    requires forall c :: c in added ==> c.IsValid()
    ensures Shape(AddCandidates(t, added))
  {
  }

  lemma ShapeFail(t: Target, failed: set<AddrPort>, settle: bool)
    requires Shape(t) && (settle ==> t.started.Some?)
    ensures Shape(Fail(t, failed, settle))
  {
  }

  /** The part of `Shape` that survives between the statements of one write. */
  predicate Listed(t: Target) {
    && (forall c :: c in t.candidates ==> c.IsValid())
    && (forall c :: c in t.live ==> c in t.candidates)
    && (t.winner.IsValid() ==> t.winner in t.candidates)
    && (t.responder.IsValid() ==> t.responder in t.candidates)
  }

  lemma ShapeNoteQuic(t: Target, ids: Ids, payload: Payload)
    requires Shape(t)
    ensures var u := NoteQuic(t, ids, payload); Listed(u) && u.cids == t.cids && u.started == t.started
  {
  }

  lemma ShapeSettleOnWrite(t: Target, size: nat, now: int)
    requires Listed(t)
    ensures var u := SettleOnWrite(t, size, now); Listed(u) && u == t.(winner := u.winner)
  {
  }

  lemma ShapeSend(t: Target, ids: Ids, payload: Payload, now: int)
    requires Shape(t)
    ensures Shape(Write(t, ids, payload, now).0)
  {
    ShapeNoteQuic(t, ids, payload);
    ShapeSettleOnWrite(NoteQuic(t, ids, payload), |payload|, now);
  }

  lemma ShapeNoteReply(t: Target, source: AddrPort, cid: Option<seq<byte>>)
    requires Shape(t) && t.started.Some? && source in t.candidates && (cid.Some? ==> t.quic)
    ensures var u := NoteReply(t, source, cid); Shape(u) && u == t.(cids := u.cids, responder := u.responder)
  {
    var cids := if cid.Some? then NoteCid(t.cids, cid.value, source) else t.cids;
    assert forall c :: c in cids && cids[c].IsValid() ==> cids[c] in t.candidates;
  }

  lemma ShapeSettleOnReply(t: Target, now: int)
    requires Shape(t) && t.started.Some?
    ensures var u := SettleOnReply(t, now); Shape(u) && u == t.(winner := u.winner)
  {
    assert Settled(t).IsValid() ==> Settled(t) in t.candidates;
  }

  lemma ShapeReceive(t: Target, source: AddrPort, ids: Ids, now: int)
    requires Shape(t) && source in t.candidates
    ensures Shape(Examine(t, source, ids, now).0)
  {
    if t.started.Some? {
      ShapeNoteReply(t, source, ServerCid(t, ids));
      ShapeSettleOnReply(NoteReply(t, source, ServerCid(t, ids)), now);
    }
  }

  lemma ShapeKept(x: Tracked, op: Op)
    requires Shape(x.t) && Enabled(x, op)
    ensures Shape(Apply(x, op).t)
  {
    match op
    case Register(cands, families) => ShapeRegister(x.t, Added(x.t.live, families, cands));
    case FailSends(failed, settle) => ShapeFail(x.t, failed, settle);
    case Send(payload, now) => ShapeSend(x.t, LongHeaderIds(payload), payload, now);
    case Receive(source, data, now) => ShapeReceive(x.t, source, LongHeaderIds(data), now);
    case _ =>
  }

  // ---------------------------------------------------------------- what one section does

  lemma MulMono(a: nat, m: nat, n: nat)
    requires m <= n
    ensures a * m <= a * n
  {
  }

  /** One write: either everything goes to the winner, or one fan-out is paid for. */
  lemma WriteEffect(t: Target, ids: Ids, payload: Payload, now: int)
    requires Shape(t)
    ensures var (u, d) := Write(t, ids, payload, now);
      && u.candidates == t.candidates && u.live == t.live && u.cids == t.cids && u.responder == t.responder
      && u.quic == (t.quic || ids.Some?)
      && (d.ToWinner? ==> u.bytes == t.bytes && u.datagrams == t.datagrams && u.started == t.started
                          && u.winner == d.to && d.to.IsValid())
      && (d.ToAll? ==> u.bytes == t.bytes + |payload| * |d.copies| && u.datagrams == t.datagrams + 1
                       && u.started.Some? && !t.winner.IsValid() && !u.winner.IsValid())
      && (!u.quic && t.winner.IsValid() ==> u.winner == t.winner)
  {
    NoteEffect(t, ids, payload);
    SettleEffect(NoteQuic(t, ids, payload), |payload|, now);
  }

  lemma NoteEffect(t: Target, ids: Ids, payload: Payload)
    ensures var v := NoteQuic(t, ids, payload);
      && v == t.(quic := t.quic || ids.Some?, quicConfirmed := v.quicConfirmed, winner := v.winner)
      && (ids.None? ==> v.winner == t.winner) && (t.winner.IsValid() ==> v.winner.IsValid())
  {
  }

  lemma SettleEffect(v: Target, size: nat, now: int)
    ensures var w := SettleOnWrite(v, size, now);
      w == v.(winner := w.winner) && (v.winner.IsValid() ==> w.winner == v.winner)
  {
  }

  /** A non-QUIC fan-out after the first one is within the datagram and byte budgets, or empty. */
  lemma FanOutWithinBudget(t: Target, ids: Ids, payload: Payload, now: int)
    requires Shape(t) && t.started.Some?
    ensures var (u, d) := Write(t, ids, payload, now);
      d.ToAll? && !u.quic ==> d.copies == [] || (t.datagrams < RACE_DATAGRAMS && u.bytes <= RACE_BYTES)
  {
    var v := NoteQuic(t, ids, payload);
    MulMono(|payload|, |LiveOf(v.candidates, v.live)|, |v.candidates|);
  }

  lemma ReceiveEffect(t: Target, source: AddrPort, ids: Ids, now: int)
    requires Shape(t) && t.started.Some? && source in t.candidates
    ensures var (u, delivered) := Examine(t, source, ids, now);
      && u == t.(cids := u.cids, responder := u.responder, winner := u.winner)
      && u.cids == (if ServerCid(t, ids).Some? then NoteCid(t.cids, ServerCid(t, ids).value, source) else t.cids)
      && (t.winner.IsValid() ==> u.winner == t.winner)
      && (!t.quic && delivered ==> u.winner == source)
  {
    ShapeNoteReply(t, source, ServerCid(t, ids));
    ShapeSettleOnReply(NoteReply(t, source, ServerCid(t, ids)), now);
  }

  /** Late candidates get replays only within the byte budget. */
  lemma {:induction false} ReplayWithinBudget(bytes: nat, replay: seq<Payload>, n: nat)
    ensures var k := Replayed(bytes, replay, n);
      k == 0 || bytes + ReplayCost(replay[..k], n) <= RACE_BYTES
    decreases |replay|
  {
    var k := Replayed(bytes, replay, n);
    if k > 0 {
      var cost := |replay[0]| * n;
      ReplayWithinBudget(bytes + cost, replay[1..], n);
      assert replay[..k][1..] == replay[1..][..k - 1];
      assert replay[..k][0] == replay[0];
    }
  }

  // ---------------------------------------------------------------- budgets

  lemma {:induction false} FirstFanOutSnoc(trail: seq<Event>, e: Event)
    ensures FirstFanOut(trail + [e]) ==
      if (exists i :: 0 <= i < |trail| && IsFanOut(trail[i])) then FirstFanOut(trail)
      else if IsFanOut(e) then Cost(e) else 0
  {
    if trail == [] {
      assert trail + [e] == [e];
    } else {
      assert (trail + [e])[1..] == trail[1..] + [e];
      FirstFanOutSnoc(trail[1..], e);
      if !IsFanOut(trail[0]) {
        assert forall i :: 1 <= i < |trail| ==> trail[1..][i - 1] == trail[i];
      }
    }
  }

  lemma CountsSnoc(trail: seq<Event>, e: Event)
    ensures RaceBytes(trail + [e]) == RaceBytes(trail) + Cost(e)
    ensures FanOuts(trail + [e]) == FanOuts(trail) + if IsFanOut(e) && e.decision.copies != [] then 1 else 0
  {
    assert (trail + [e])[..|trail|] == trail;
  }

  predicate Accounts(x: Tracked) {
    StartedByFanOut(x) && Budget(x)
  }

  lemma AccountsSend(x: Tracked, ids: Ids, payload: Payload, now: int)
    requires Shape(x.t) && Accounts(x)
    ensures Accounts(SendTracked(x, ids, payload, now))
  {
    var (u, d) := Write(x.t, ids, payload, now);
    WriteEffect(x.t, ids, payload, now);
    if x.t.started.Some? {
      FanOutWithinBudget(x.t, ids, payload, now);
    }
    AccountsWrote(x, u, payload, d);
  }

  lemma AccountsWrote(x: Tracked, u: Target, payload: Payload, d: Decision)
    requires Accounts(x) && (x.t.started.None? ==> x.t.bytes == 0 && x.t.datagrams == 0)
    requires x.t.quic ==> u.quic
    requires d.ToWinner? ==> u.bytes == x.t.bytes && u.datagrams == x.t.datagrams && u.started == x.t.started
    requires d.ToAll? ==>
      u.bytes == x.t.bytes + |payload| * |d.copies| && u.datagrams == x.t.datagrams + 1 && u.started.Some?
    requires d.ToAll? && !u.quic && x.t.started.Some? ==>
      d.copies == [] || (x.t.datagrams < RACE_DATAGRAMS && u.bytes <= RACE_BYTES)
    ensures Accounts(Tracked(u, x.trail + [Wrote(payload, d)]))
  {
    var e := Wrote(payload, d);
    CountsSnoc(x.trail, e);
    FirstFanOutSnoc(x.trail, e);
    var y := Tracked(u, x.trail + [e]);
    assert y.trail[|x.trail|] == e;
    assert forall i :: 0 <= i < |x.trail| ==> y.trail[i] == x.trail[i];
  }

  lemma AccountsRegister(x: Tracked, added: seq<AddrPort>)
    requires Shape(x.t) && Accounts(x)
    ensures Accounts(RegisterTracked(x, added))
  {
    var y := RegisterTracked(x, added);
    ReplayWithinBudget(x.t.bytes, x.t.replay, |added|);
    AccountsReplayed(x, y.t, y.t.bytes - x.t.bytes);
  }

  lemma AccountsReplayed(x: Tracked, u: Target, cost: nat)
    requires Accounts(x) && u.bytes == x.t.bytes + cost && (cost == 0 || u.bytes <= RACE_BYTES)
    requires u.started == x.t.started && u.quic == x.t.quic && u.datagrams == x.t.datagrams
    requires x.t.started.None? ==> x.t.bytes == 0
    ensures Accounts(Tracked(u, x.trail + [ReplayedBytes(cost)]))
  {
    var e := ReplayedBytes(cost);
    CountsSnoc(x.trail, e);
    FirstFanOutSnoc(x.trail, e);
    assert forall i :: 0 <= i < |x.trail| ==> (x.trail + [e])[i] == x.trail[i];
  }

  lemma AccountsReceive(x: Tracked, source: AddrPort, ids: Ids, now: int)
    requires Shape(x.t) && Accounts(x) && source in x.t.candidates
    ensures Accounts(ReceiveTracked(x, source, ids, now))
  {
    if x.t.started.Some? {
      ReceiveEffect(x.t, source, ids, now);
      var y := ReceiveTracked(x, source, ids, now);
      CountsSnoc(x.trail, y.trail[|x.trail|]);
      FirstFanOutSnoc(x.trail, y.trail[|x.trail|]);
      assert forall i :: 0 <= i < |x.trail| ==> y.trail[i] == x.trail[i];
    }
  }

  lemma AccountsKept(x: Tracked, op: Op)
    requires Shape(x.t) && Accounts(x) && Enabled(x, op)
    ensures Accounts(Apply(x, op))
  {
    match op
    case Register(cands, families) => AccountsRegister(x, Added(x.t.live, families, cands));
    case Send(payload, now) => AccountsSend(x, LongHeaderIds(payload), payload, now);
    case Receive(source, data, now) => AccountsReceive(x, source, LongHeaderIds(data), now);
    case _ =>
  }

  // ---------------------------------------------------------------- connection-ID table

  lemma SeenSnoc(trail: seq<Event>, e: Event)
    ensures forall cid, s :: Seen(trail + [e], cid, s) <==>
              Seen(trail, cid, s) || (e.Reply? && e.cid == Some(cid) && e.source == s)
  {
    var more := trail + [e];
    forall cid, s
      ensures Seen(more, cid, s) <==> Seen(trail, cid, s) || (e.Reply? && e.cid == Some(cid) && e.source == s)
    {
      if Seen(trail, cid, s) {
        var i :| 0 <= i < |trail| && trail[i].Reply? && trail[i].cid == Some(cid) && trail[i].source == s;
        assert more[i] == trail[i];
      }
      assert more[|trail|] == e;
    }
  }

  /** Events that record no connection ID leave the table's meaning alone. */
  lemma CidTableIdle(cids: map<seq<byte>, AddrPort>, trail: seq<Event>, e: Event)
    requires CidTable(cids, trail) && (e.Reply? ==> e.cid.None?)
    ensures CidTable(cids, trail + [e])
  {
    SeenSnoc(trail, e);
    forall cid ensures EntryOk(cids, trail + [e], cid) {
      assert EntryOk(cids, trail, cid);
    }
  }

  lemma CidTableNote(cids: map<seq<byte>, AddrPort>, trail: seq<Event>, e: Event)
    requires CidTable(cids, trail) && e.Reply? && e.cid.Some? && e.source.IsValid()
    ensures CidTable(NoteCid(cids, e.cid.value, e.source), trail + [e])
  {
    SeenSnoc(trail, e);
    var more := NoteCid(cids, e.cid.value, e.source);
    forall cid ensures EntryOk(more, trail + [e], cid) {
      assert EntryOk(cids, trail, cid);
      if cid == e.cid.value && cid in cids && cids[cid].IsValid() && cids[cid] != e.source {
        assert Seen(trail + [e], cid, cids[cid]) && Seen(trail + [e], cid, e.source);
      }
    }
  }

  lemma CidTableKept(x: Tracked, op: Op)
    requires Shape(x.t) && CidTable(x.t.cids, x.trail) && Enabled(x, op)
    ensures var y := Apply(x, op); CidTable(y.t.cids, y.trail)
  {
    var y := Apply(x, op);
    match op
    case Register(cands, families) => CidTableIdle(x.t.cids, x.trail, y.trail[|x.trail|]);
    case Send(payload, now) =>
      WriteEffect(x.t, LongHeaderIds(payload), payload, now);
      CidTableIdle(x.t.cids, x.trail, y.trail[|x.trail|]);
    case Receive(source, data, now) =>
      if x.t.started.Some? {
        var ids := LongHeaderIds(data);
        ReceiveEffect(x.t, source, ids, now);
        if ServerCid(x.t, ids).Some? {
          CidTableNote(x.t.cids, x.trail, y.trail[|x.trail|]);
        } else {
          CidTableIdle(x.t.cids, x.trail, y.trail[|x.trail|]);
        }
      }
    case _ =>
  }

  // ---------------------------------------------------------------- one winner, one warm preference

  lemma DeliveryKept(x: Tracked, op: Op)
    requires Shape(x.t) && DeliveredByWinner(x) && Enabled(x, op)
    ensures DeliveredByWinner(Apply(x, op))
  {
    match op
    case Send(payload, now) => WriteEffect(x.t, LongHeaderIds(payload), payload, now);
    case Receive(source, data, now) =>
      if x.t.started.Some? {
        ReceiveEffect(x.t, source, LongHeaderIds(data), now);
      }
    case _ =>
  }

  /** Appending an event that stores nothing. */
  lemma WarmIdle(x: Tracked, y: Tracked, e: Event)
    requires WarmOnce(x) && y.trail == x.trail + [e] && y.t.quicConfirmed == x.t.quicConfirmed && !IsStore(e)
    ensures WarmOnce(y)
  {
    assert forall i :: 0 <= i < |x.trail| ==> y.trail[i] == x.trail[i] && y.trail[..i] == x.trail[..i];
    forall i | 0 <= i < |y.trail| && IsStore(y.trail[i]) ensures Justified(y.trail, i) {
      assert Justified(x.trail, i);
    }
  }

  lemma WarmSend(x: Tracked, payload: Payload, now: int)
    requires Shape(x.t) && WarmOnce(x) && CidTable(x.t.cids, x.trail)
    ensures WarmOnce(SendTracked(x, LongHeaderIds(payload), payload, now))
  {
    var ids := LongHeaderIds(payload);
    var y := SendTracked(x, ids, payload, now);
    var e := y.trail[|x.trail|];
    if Confirms(x.t, ids, payload) {
      var cid :| cid in x.t.cids && x.t.cids[cid] == x.t.winner && Carries(payload, cid);
      assert EntryOk(x.t.cids, x.trail, cid);
      assert y.trail[..|x.trail|] == x.trail;
      assert Justified(y.trail, |x.trail|);
      assert forall i :: 0 <= i < |x.trail| ==> y.trail[i] == x.trail[i];
    } else {
      WarmIdle(x, y, e);
    }
  }

  lemma WarmKept(x: Tracked, op: Op)
    requires Shape(x.t) && WarmOnce(x) && CidTable(x.t.cids, x.trail) && Enabled(x, op)
    ensures WarmOnce(Apply(x, op))
  {
    var y := Apply(x, op);
    match op
    case Register(cands, families) => WarmIdle(x, y, y.trail[|x.trail|]);
    case Send(payload, now) => WarmSend(x, payload, now);
    case Receive(source, data, now) =>
      if x.t.started.Some? {
        ReceiveEffect(x.t, source, LongHeaderIds(data), now);
        WarmIdle(x, y, y.trail[|x.trail|]);
      }
    case _ =>
  }

  // ---------------------------------------------------------------- all together

  lemma InvKept(x: Tracked, op: Op)
    requires Inv(x) && Enabled(x, op)
    ensures Inv(Apply(x, op))
  {
    ShapeKept(x, op);
    assert Accounts(x);
    AccountsKept(x, op);
    CidTableKept(x, op);
    DeliveryKept(x, op);
    WarmKept(x, op);
  }

  /** What never goes back: a winner is never lost, and without QUIC never changed; an
      ambiguous connection ID stays ambiguous; the history only grows. */
  ghost predicate Extends(x: Tracked, y: Tracked) {
    var (t, u) := (x.t, y.t);
    && t.candidates <= u.candidates
    && x.trail <= y.trail
    && (t.started.Some? ==> u.started == t.started)
    && (t.quic ==> u.quic)
    && (t.winner.IsValid() ==> u.winner.IsValid() && (!u.quic ==> u.winner == t.winner))
    && (t.quicConfirmed ==> u.quicConfirmed)
    && (forall cid :: cid in t.cids ==> cid in u.cids && (u.cids[cid] == t.cids[cid] || !u.cids[cid].IsValid()))
    && (forall cid :: cid in t.cids && !t.cids[cid].IsValid() ==> cid in u.cids && !u.cids[cid].IsValid())
  }

  lemma ExtendsTransitive(x: Tracked, y: Tracked, z: Tracked)
    requires Extends(x, y) && Extends(y, z)
    ensures Extends(x, z)
  {
  }

  lemma WriteKeepsWinner(t: Target, ids: Ids, payload: Payload, now: int)
    requires Shape(t)
    ensures var u := Write(t, ids, payload, now).0;
      && (t.winner.IsValid() ==> u.winner.IsValid())
      && (t.started.Some? ==> u.started == t.started)
      && (t.quicConfirmed ==> u.quicConfirmed)
  {
    ShapeNoteQuic(t, ids, payload);
    ShapeSettleOnWrite(NoteQuic(t, ids, payload), |payload|, now);
  }

  lemma ApplyExtends(x: Tracked, op: Op)
    requires Shape(x.t) && Enabled(x, op)
    ensures Extends(x, Apply(x, op))
  {
    match op
    case Send(payload, now) =>
      WriteEffect(x.t, LongHeaderIds(payload), payload, now);
      WriteKeepsWinner(x.t, LongHeaderIds(payload), payload, now);
    case Receive(source, data, now) =>
      if x.t.started.Some? {
        ReceiveEffect(x.t, source, LongHeaderIds(data), now);
      }
    case _ =>
  }

  /** A write finds the race past its window: 900 ms for QUIC; 300 ms, four datagrams or the byte
      budget otherwise. */
  predicate Overdue(t: Target, size: nat, now: int) {
    t.started.Some? &&
    if t.quic then now - t.started.value >= QUIC_WINDOW
    else
      || now - t.started.value >= RACE_WINDOW
      || t.datagrams >= RACE_DATAGRAMS
      || t.bytes + size * |t.candidates| > RACE_BYTES
  }

  /** After a write there is a winner exactly when there was one, the write named one by its
      connection ID, or the race is overdue and some candidate is live, which then wins. */
  lemma WriteSettles(t: Target, ids: Ids, payload: Payload, now: int)
    requires Shape(t)
    ensures var (named, u) := (NoteQuic(t, ids, payload), Write(t, ids, payload, now).0);
      && (u.winner.IsValid() <==> named.winner.IsValid() || (t.live != {} && Overdue(named, |payload|, now)))
      && (u.winner.IsValid() ==> if named.winner.IsValid() then u.winner == named.winner else u.winner in t.live)
  {
    ShapeNoteQuic(t, ids, payload);
    SettlesOnWrite(NoteQuic(t, ids, payload), |payload|, now);
  }

  predicate PastWindow(t: Target, now: int) {
    t.started.Some? && now - t.started.value >= if t.quic then QUIC_WINDOW else RACE_WINDOW
  }

  /** After an examined reply there is a winner exactly when there was one, the window is past and
      some candidate is live, or, without QUIC, the sender is live and so wins itself. */
  lemma ReplySettles(t: Target, source: AddrPort, ids: Ids, now: int)
    requires Shape(t) && t.started.Some? && source in t.candidates
    ensures var u := Examine(t, source, ids, now).0;
      && u.quic == t.quic
      && (u.winner.IsValid() <==>
            t.winner.IsValid() || (t.live != {} && PastWindow(t, now)) || (!t.quic && source in t.live))
      && (u.winner.IsValid() ==> if t.winner.IsValid() then u.winner == t.winner else u.winner in t.live)
  {
    ShapeNoteReply(t, source, ServerCid(t, ids));
    SettlesOnReply(NoteReply(t, source, ServerCid(t, ids)), now);
  }

  /** Either way of settling picks a live candidate, and nobody exactly when none is live. */
  lemma SettlesAmongLive(t: Target)
    requires Listed(t)
    ensures FirstLive(t).IsValid() == Settled(t).IsValid() == (t.live != {})
    ensures t.live != {} ==> FirstLive(t) in t.live && Settled(t) in t.live
  {
    var l := LiveOf(t.candidates, t.live);
    if c :| c in t.live {
      assert c in l;
    }
    assert l != [] ==> l[0] in l;
  }

  lemma SettlesOnReply(t: Target, now: int)
    requires Listed(t) && t.started.Some?
    ensures var u := SettleOnReply(t, now);
      && u == t.(winner := u.winner)
      && (u.winner.IsValid() <==> t.winner.IsValid() || (t.live != {} && PastWindow(t, now)))
      && (u.winner.IsValid() ==> if t.winner.IsValid() then u.winner == t.winner else u.winner in t.live)
  {
    SettlesAmongLive(t);
  }

  lemma SettlesOnWrite(t: Target, size: nat, now: int)
    requires Listed(t)
    ensures var u := SettleOnWrite(t, size, now);
      && u == t.(winner := u.winner)
      && (u.winner.IsValid() <==> t.winner.IsValid() || (t.live != {} && Overdue(t, size, now)))
      && (u.winner.IsValid() ==> if t.winner.IsValid() then u.winner == t.winner else u.winner in t.live)
  {
    SettlesAmongLive(t);
  }

  // ---------------------------------------------------------------- whole runs of one target

  ghost predicate Runs(x: Tracked, ops: seq<Op>, y: Tracked)
    decreases |ops|
  {
    if ops == [] then x == y
    else Enabled(x, ops[0]) && Runs(Apply(x, ops[0]), ops[1..], y)
  }

  /** `y` is what some sequence of sections makes of `x`. */
  ghost predicate Evolves(x: Tracked, y: Tracked) {
    exists ops :: Runs(x, ops, y)
  }

  /** A target that some run of its sections produced from a fresh one. */
  ghost predicate Born(x: Tracked) {
    exists host, adapter :: Evolves(Tracked(NewTarget(host, adapter), []), x)
  }

  lemma EvolvesRefl(x: Tracked)
    ensures Evolves(x, x)
  {
    assert Runs(x, [], x);
  }

  lemma EvolvesByOne(x: Tracked, op: Op)
    requires Enabled(x, op)
    ensures Evolves(x, Apply(x, op))
  {
    var y := Apply(x, op);
    assert Runs(y, [], y);
    assert Runs(x, [op], y);
  }

  lemma {:induction false} RunsConcat(x: Tracked, ops: seq<Op>, y: Tracked, more: seq<Op>, z: Tracked)
    requires Runs(x, ops, y) && Runs(y, more, z)
    ensures Runs(x, ops + more, z)
    decreases |ops|
  {
    if ops == [] {
      assert ops + more == more;
    } else {
      var all := ops + more;
      assert all[0] == ops[0] && all[1..] == ops[1..] + more;
      RunsConcat(Apply(x, ops[0]), ops[1..], y, more, z);
    }
  }

  lemma EvolvesTransitive(x: Tracked, y: Tracked, z: Tracked)
    requires Evolves(x, y) && Evolves(y, z)
    ensures Evolves(x, z)
  {
    var ops :| Runs(x, ops, y);
    var more :| Runs(y, more, z);
    RunsConcat(x, ops, y, more, z);
  }

  lemma {:induction false} RunsKeep(x: Tracked, ops: seq<Op>, y: Tracked)
    requires Inv(x) && Runs(x, ops, y)
    ensures Inv(y) && Extends(x, y)
    decreases |ops|
  {
    if ops != [] {
      var z := Apply(x, ops[0]);
      InvKept(x, ops[0]);
      ApplyExtends(x, ops[0]);
      RunsKeep(z, ops[1..], y);
      ExtendsTransitive(x, z, y);
    }
  }

  /** Every reachable target satisfies the whole invariant. */
  lemma BornInv(x: Tracked)
    requires Born(x)
    ensures Inv(x)
  {
    var host, adapter :| Evolves(Tracked(NewTarget(host, adapter), []), x);
    var x0 := Tracked(NewTarget(host, adapter), []);
    var ops :| Runs(x0, ops, x);
    InitInv(host, adapter);
    RunsKeep(x0, ops, x);
  }

  lemma BornEvolves(x: Tracked, y: Tracked)
    requires Born(x) && Evolves(x, y)
    ensures Born(y) && Extends(x, y)
  {
    BornInv(x);
    var ops :| Runs(x, ops, y);
    RunsKeep(x, ops, y);
    var host, adapter :| Evolves(Tracked(NewTarget(host, adapter), []), x);
    EvolvesTransitive(Tracked(NewTarget(host, adapter), []), x, y);
  }
}
