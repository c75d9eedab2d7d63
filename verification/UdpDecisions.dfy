/**
 What a section of the DIRECT UDP race decides for one target, said in terms of the target's
 history and of the state the section leaves: whom a datagram goes to, who wins and when, and
 which opening datagrams are kept for late candidates.
 */
module UdpDecisions {
  import opened NetTypes
  import opened QuicHeader
  import opened UdpTarget
  import opened UdpTargetSafety

  // ---------------------------------------------------------------- live candidates in order

  /** The places in the list at which a live candidate stands. */
  ghost predicate LivePlaces(cands: seq<AddrPort>, live: set<AddrPort>, at: seq<nat>) {
    && (forall i, j :: 0 <= i < j < |at| ==> at[i] < at[j])
    && (forall i :: 0 <= i < |at| ==> at[i] < |cands|)
    && (forall k :: 0 <= k < |cands| ==> (cands[k] in live <==> k in at))
  }

  /** The candidates standing at live places, in the order of the list. */
  ghost predicate AllLive(cands: seq<AddrPort>, live: set<AddrPort>, copies: seq<AddrPort>) {
    exists at :: LivePlaces(cands, live, at) && StandAt(cands, at, copies)
  }

  predicate StandAt(cands: seq<AddrPort>, at: seq<nat>, copies: seq<AddrPort>) {
    |copies| == |at| && forall i :: 0 <= i < |at| ==> at[i] < |cands| && copies[i] == cands[at[i]]
  }

  function Shifted(at: seq<nat>): seq<nat> {
    seq(|at|, i requires 0 <= i < |at| => at[i] + 1)
  }

  lemma ShiftedPlaces(cands: seq<AddrPort>, live: set<AddrPort>, at: seq<nat>)
    requires cands != [] && LivePlaces(cands[1..], live, at)
    ensures LivePlaces(cands, live, (if cands[0] in live then [0] else []) + Shifted(at))
  {
    var more := (if cands[0] in live then [0] else []) + Shifted(at);
    forall k | 0 <= k < |cands| ensures cands[k] in live <==> k in more {
      if k > 0 {
        assert cands[1..][k - 1] == cands[k];
        if k - 1 in at {
          var i :| 0 <= i < |at| && at[i] == k - 1;
          assert Shifted(at)[i] == k;
        }
      }
    }
  }

  lemma {:induction false} PlacesOfLive(cands: seq<AddrPort>, live: set<AddrPort>) returns (at: seq<nat>)
    ensures LivePlaces(cands, live, at) && StandAt(cands, at, LiveOf(cands, live))
  {
    if cands == [] {
      at := [];
    } else {
      var rest := PlacesOfLive(cands[1..], live);
      ShiftedPlaces(cands, live, rest);
      at := (if cands[0] in live then [0] else []) + Shifted(rest);
      ShiftedStand(cands, live, rest);
    }
  }

  lemma ShiftedStand(cands: seq<AddrPort>, live: set<AddrPort>, at: seq<nat>)
    requires cands != [] && StandAt(cands[1..], at, LiveOf(cands[1..], live))
    ensures StandAt(cands, (if cands[0] in live then [0] else []) + Shifted(at), LiveOf(cands, live))
  {
    var rest, more := LiveOf(cands[1..], live), Shifted(at);
    assert StandAt(cands, more, rest) by {
      forall i | 0 <= i < |at| ensures more[i] < |cands| && rest[i] == cands[more[i]] {
        assert cands[1..][at[i]] == cands[at[i] + 1];
      }
    }
    if cands[0] in live {
      StandFirst(cands, more, rest);
    } else {
      assert [] + more == more && [] + rest == rest;
    }
  }

  lemma StandFirst(cands: seq<AddrPort>, at: seq<nat>, copies: seq<AddrPort>)
    requires cands != [] && StandAt(cands, at, copies)
    ensures StandAt(cands, [0] + at, [cands[0]] + copies)
  {
  }

  lemma LiveOfIsAllLive(cands: seq<AddrPort>, live: set<AddrPort>)
    ensures AllLive(cands, live, LiveOf(cands, live))
  {
    var at := PlacesOfLive(cands, live);
  }

  /** The earliest listed live candidate. */
  ghost predicate EarliestLive(cands: seq<AddrPort>, live: set<AddrPort>, c: AddrPort) {
    exists k :: 0 <= k < |cands| && cands[k] == c && c in live && forall i :: 0 <= i < k ==> cands[i] !in live
  }

  lemma FirstLiveIsEarliest(t: Target)
    requires Listed(t) && t.live != {}
    ensures EarliestLive(t.candidates, t.live, FirstLive(t)) && FirstLive(t).IsValid()
  {
    FirstLiveIs(t);
    var c :| c in t.live;
    assert c in t.candidates;
  }

  // ---------------------------------------------------------------- the state a history leaves

  /** Datagrams that were offered to all live candidates, if only to none. */
  function Openings(trail: seq<Event>): nat {
    if trail == [] then 0 else Openings(trail[..|trail| - 1]) + if IsFanOut(trail[|trail| - 1]) then 1 else 0
  }

  /** The first source that was live when it replied. */
  function FirstReplier(trail: seq<Event>): Option<AddrPort> {
    if trail == [] then None
    else
      var first, e := FirstReplier(trail[..|trail| - 1]), trail[|trail| - 1];
      if first.None? && e.Reply? && e.live then Some(e.source) else first
  }

  predicate IsLong(e: Event) {
    e.Wrote? && LongHeaderIds(e.payload).Some?
  }

  predicate SpeaksQuic(trail: seq<Event>) {
    exists i :: 0 <= i < |trail| && IsLong(trail[i])
  }

  function TotalSize(payloads: seq<Payload>): nat {
    if payloads == [] then 0 else TotalSize(payloads[..|payloads| - 1]) + |payloads[|payloads| - 1]|
  }

  /** The recorded responder is the first live replier. */
  predicate Responds(t: Target, first: Option<AddrPort>) {
    match first case Some(c) => c.IsValid() && t.responder == c case None => t.responder == UNSET
  }

  /** The target remembers exactly this much of its history. */
  predicate Recalls(x: Tracked) {
    && x.t.datagrams == Openings(x.trail)
    && Responds(x.t, FirstReplier(x.trail))
    && (x.t.quic <==> SpeaksQuic(x.trail))
    && x.t.replayBytes == TotalSize(x.t.replay)
  }

  lemma HistoryMore(trail: seq<Event>, e: Event)
    ensures Openings(trail + [e]) == Openings(trail) + if IsFanOut(e) then 1 else 0
    ensures FirstReplier(trail + [e]) ==
      if FirstReplier(trail).None? && e.Reply? && e.live then Some(e.source) else FirstReplier(trail)
    ensures SpeaksQuic(trail + [e]) <==> SpeaksQuic(trail) || IsLong(e)
  {
    assert (trail + [e])[..|trail|] == trail;
    assert forall i :: 0 <= i < |trail| ==> (trail + [e])[i] == trail[i];
  }

  lemma TotalSizeMore(payloads: seq<Payload>, p: Payload)
    ensures TotalSize(payloads + [p]) == TotalSize(payloads) + |p|
  {
    assert (payloads + [p])[..|payloads|] == payloads;
  }

  lemma RecallsSend(x: Tracked, payload: Payload, now: int)
    requires Shape(x.t) && Recalls(x)
    ensures Recalls(SendTracked(x, LongHeaderIds(payload), payload, now))
  {
    var ids := LongHeaderIds(payload);
    var (u, d) := Write(x.t, ids, payload, now);
    WriteEffect(x.t, ids, payload, now);
    WriteKeepsOpenings(x.t, ids, payload, now);
    HistoryMore(x.trail, Wrote(payload, d));
  }

  /** Which opening datagrams a write leaves kept. */
  lemma WriteKeepsOpenings(t: Target, ids: Ids, payload: Payload, now: int)
    requires t.replayBytes == TotalSize(t.replay)
    ensures var u := Write(t, ids, payload, now).0;
      && u.replayBytes == TotalSize(u.replay)
      && u.replay == if u.winner.IsValid() then []
                     else if t.collecting && |t.replay| < 4 && TotalSize(t.replay) + |payload| <= 16384
                     then t.replay + [payload]
                     else t.replay
  {
    NoteEffect(t, ids, payload);
    SettleEffect(NoteQuic(t, ids, payload), |payload|, now);
    TotalSizeMore(t.replay, payload);
  }

  lemma RecallsReceive(x: Tracked, source: AddrPort, ids: Ids, now: int)
    requires Shape(x.t) && Recalls(x) && source in x.t.candidates
    ensures Recalls(ReceiveTracked(x, source, ids, now))
  {
    if x.t.started.Some? {
      var (u, delivered) := Examine(x.t, source, ids, now);
      ReceiveEffect(x.t, source, ids, now);
      ExamineNotes(x.t, source, ids, now);
      HistoryMore(x.trail, Reply(source, source in x.t.live, ServerCid(x.t, ids), delivered));
    }
  }

  lemma ExamineNotes(t: Target, source: AddrPort, ids: Ids, now: int)
    requires Shape(t) && t.started.Some? && source in t.candidates
    ensures Examine(t, source, ids, now).0.responder ==
      if source in t.live && !t.responder.IsValid() then source else t.responder
  {
    ShapeNoteReply(t, source, ServerCid(t, ids));
    ShapeSettleOnReply(NoteReply(t, source, ServerCid(t, ids)), now);
  }

  lemma RecallsKept(x: Tracked, op: Op)
    requires Shape(x.t) && Recalls(x) && Enabled(x, op)
    ensures Recalls(Apply(x, op))
  {
    match op
    case Register(cands, families) =>
      var y := Apply(x, op);
      HistoryMore(x.trail, y.trail[|x.trail|]);
    case Send(payload, now) => RecallsSend(x, payload, now);
    case Receive(source, data, now) => RecallsReceive(x, source, LongHeaderIds(data), now);
    case _ =>
  }

  lemma {:induction false} RunsRecall(x: Tracked, ops: seq<Op>, y: Tracked)
    requires Inv(x) && Recalls(x) && Runs(x, ops, y)
    ensures Recalls(y)
    decreases |ops|
  {
    if ops != [] {
      InvKept(x, ops[0]);
      RecallsKept(x, ops[0]);
      RunsRecall(Apply(x, ops[0]), ops[1..], y);
    }
  }

  /** Whatever sections ran, counters, responder and QUIC mark are those of the history. */
  lemma BornRecalls(x: Tracked)
    requires Born(x)
    ensures Recalls(x)
  {
    var host, adapter :| Evolves(Tracked(NewTarget(host, adapter), []), x);
    var x0 := Tracked(NewTarget(host, adapter), []);
    var ops :| Runs(x0, ops, x);
    InitInv(host, adapter);
    RunsRecall(x0, ops, x);
  }

  // ---------------------------------------------------------------- writing

  /** Where a datagram goes, by the target it leaves: to the winner, or to every live candidate. */
  ghost predicate Sends(t: Target, d: Decision) {
    if t.winner.IsValid() then d.ToWinner? && d.to == t.winner
    else
      && d.ToAll? && AllLive(t.candidates, t.live, d.copies)
      && forall c :: c in d.copies <==> c in t.candidates && c in t.live
  }

  /** A short-header datagram of a QUIC target carries an ID that the table gives to the winner. */
  predicate Proves(t: Target, payload: Payload) {
    && LongHeaderIds(payload).None? && t.quic && t.winner.IsValid()
    && exists cid :: cid in t.cids && t.cids[cid] == t.winner && Carries(payload, cid)
  }

  lemma WriteSends(t: Target, payload: Payload, now: int)
    ensures var (u, d) := Write(t, LongHeaderIds(payload), payload, now);
      && Sends(u, d)
      && (d.ToWinner? ==> d.store == if Proves(t, payload) && !t.quicConfirmed then Some(t.winner.addr) else None)
  {
    var ids := LongHeaderIds(payload);
    NoteEffect(t, ids, payload);
    SettleEffect(NoteQuic(t, ids, payload), |payload|, now);
    LiveOfIsAllLive(t.candidates, t.live);
  }

  /** A write finds its race late: 900 ms after the first datagram for QUIC; otherwise 300 ms, four
      datagrams offered, or 16 KiB exceeded if every candidate got this one. */
  predicate Late(x: Tracked, payload: Payload, now: int) {
    && x.t.started.Some?
    && var waited := now - x.t.started.value;
       if SpeaksQuic(x.trail) || LongHeaderIds(payload).Some? then waited >= 900
       else waited >= 300 || Openings(x.trail) >= 4 || RaceBytes(x.trail) + |payload| * |x.t.candidates| > 16384
  }

  /** The live candidate that wins when a race ends undecided: of a QUIC race the first that
      replied, if it is still live, and otherwise the earliest listed. */
  ghost predicate Survivor(
    cands: seq<AddrPort>, live: set<AddrPort>, first: Option<AddrPort>, quic: bool, c: AddrPort)
  {
    if quic && first.Some? && first.value in live then c == first.value else EarliestLive(cands, live, c)
  }

  lemma SettledSurvives(t: Target, first: Option<AddrPort>)
    requires Listed(t) && t.live != {} && Responds(t, first)
    ensures Survivor(t.candidates, t.live, first, true, Settled(t))
    ensures Survivor(t.candidates, t.live, first, false, FirstLive(t))
  {
    FirstLiveIsEarliest(t);
  }

  lemma LateSettles(v: Target, first: Option<AddrPort>, size: nat, now: int)
    requires Listed(v) && Responds(v, first)
    ensures var w := SettleOnWrite(v, size, now).winner;
      if v.winner.IsValid() then w == v.winner
      else if Overdue(v, size, now) && v.live != {} then Survivor(v.candidates, v.live, first, v.quic, w)
      else !w.IsValid()
  {
    SettlesOnWrite(v, size, now);
    if v.live != {} {
      SettledSurvives(v, first);
    }
  }

  lemma LateIsOverdue(x: Tracked, payload: Payload, now: int, v: Target)
    requires Recalls(x) && RaceBytes(x.trail) == x.t.bytes
    requires v == x.t.(quic := x.t.quic || LongHeaderIds(payload).Some?,
                       quicConfirmed := v.quicConfirmed, winner := v.winner)
    ensures Late(x, payload, now) <==> Overdue(v, |payload|, now)
  {
  }

  /** The address that the destination ID of a written long header names. */
  function Named(t: Target, payload: Payload): AddrPort {
    var ids := LongHeaderIds(payload);
    if ids.Some? && ids.value.0 in t.cids then t.cids[ids.value.0] else UNSET
  }

  /** Who wins after a write, in terms of what happened before it. */
  ghost predicate WriteWinner(x: Tracked, payload: Payload, now: int, w: AddrPort) {
    if Named(x.t, payload).IsValid() then w == Named(x.t, payload)
    else if x.t.winner.IsValid() then w == x.t.winner
    else if Late(x, payload, now) && x.t.live != {}
    then Survivor(x.t.candidates, x.t.live, FirstReplier(x.trail),
                  SpeaksQuic(x.trail) || LongHeaderIds(payload).Some?, w)
    else !w.IsValid()
  }

  lemma WriteChooses(x: Tracked, payload: Payload, now: int)
    requires Inv(x) && Recalls(x)
    ensures WriteWinner(x, payload, now, Apply(x, Send(payload, now)).t.winner)
  {
    var ids := LongHeaderIds(payload);
    var v := NoteQuic(x.t, ids, payload);
    NoteEffect(x.t, ids, payload);
    ShapeNoteQuic(x.t, ids, payload);
    LateIsOverdue(x, payload, now, v);
    LateSettles(v, FirstReplier(x.trail), |payload|, now);
    SettleEffect(v, |payload|, now);
    NotedWinner(x.t, payload);
    var w := SettleOnWrite(v, |payload|, now).winner;
    assert Apply(x, Send(payload, now)).t.winner == w;
    SettledWinner(x, payload, now, v, w);
  }

  lemma NotedWinner(t: Target, payload: Payload)
    ensures NoteQuic(t, LongHeaderIds(payload), payload).winner ==
      if Named(t, payload).IsValid() then Named(t, payload) else t.winner
  {
  }

  lemma SettledWinner(x: Tracked, payload: Payload, now: int, v: Target, w: AddrPort)
    requires Recalls(x) && (Late(x, payload, now) <==> Overdue(v, |payload|, now))
    requires v == x.t.(quic := x.t.quic || LongHeaderIds(payload).Some?,
                       quicConfirmed := v.quicConfirmed, winner := v.winner)
    requires v.winner == if Named(x.t, payload).IsValid() then Named(x.t, payload) else x.t.winner
    requires if v.winner.IsValid() then w == v.winner
      else if Overdue(v, |payload|, now) && v.live != {}
      then Survivor(v.candidates, v.live, FirstReplier(x.trail), v.quic, w)
      else !w.IsValid()
    ensures WriteWinner(x, payload, now, w)
  {
  }

  /** Everything else a write does. */
  lemma WriteLeaves(x: Tracked, payload: Payload, now: int)
    requires Inv(x) && Recalls(x)
    ensures var y := Apply(x, Send(payload, now));
      && |y.trail| == |x.trail| + 1 && x.trail <= y.trail
      && var d := y.trail[|x.trail|].decision;
      && y.trail[|x.trail|] == Wrote(payload, d) && Sends(y.t, d)
      && (d.ToWinner? && d.store.Some? <==>
            Proves(x.t, payload) && forall i :: 0 <= i < |x.trail| ==> !IsStore(x.trail[i]))
      && (d.ToWinner? && d.store.Some? ==> d.store.value == x.t.winner.addr)
      && y.t.started == (if x.t.started.Some? || y.t.winner.IsValid() then x.t.started else Some(now))
      && y.t.candidates == x.t.candidates && y.t.live == x.t.live && y.t.cids == x.t.cids
      && y.t.host == x.t.host && y.t.adapter == x.t.adapter && y.t.collecting == x.t.collecting
  {
    var ids := LongHeaderIds(payload);
    WriteSends(x.t, payload, now);
    WriteEffect(x.t, ids, payload, now);
    NoteEffect(x.t, ids, payload);
    SettleEffect(NoteQuic(x.t, ids, payload), |payload|, now);
  }

  // ---------------------------------------------------------------- reading

  /** Who wins after an examined reply of `c`, in terms of what happened before it. */
  ghost predicate ReplyWinner(x: Tracked, c: AddrPort, now: int, w: AddrPort)
    requires x.t.started.Some?
  {
    var quic, waited := SpeaksQuic(x.trail), now - x.t.started.value;
    var first := if FirstReplier(x.trail).None? && c in x.t.live then Some(c) else FirstReplier(x.trail);
    if x.t.winner.IsValid() then w == x.t.winner
    else if waited >= (if quic then 900 else 300) && x.t.live != {}
    then Survivor(x.t.candidates, x.t.live, first, quic, w)
    else if !quic && c in x.t.live then w == c
    else !w.IsValid()
  }

  lemma PastSettles(v: Target, first: Option<AddrPort>, now: int)
    requires Listed(v) && Responds(v, first) && v.started.Some?
    ensures SettleOnReply(v, now) == v.(winner := SettleOnReply(v, now).winner)
    ensures var w := SettleOnReply(v, now).winner;
      if v.winner.IsValid() then w == v.winner
      else if PastWindow(v, now) && v.live != {} then w.IsValid() && Survivor(v.candidates, v.live, first, v.quic, w)
      else !w.IsValid()
  {
    SettlesOnReply(v, now);
    if v.live != {} {
      SettledSurvives(v, first);
    }
  }

  /** What a reply settles before the sender itself may win. */
  lemma NotedSettles(x: Tracked, c: AddrPort, cid: Option<seq<byte>>, now: int, v: Target, first: Option<AddrPort>)
    requires Shape(x.t) && Recalls(x) && x.t.started.Some? && c in x.t.candidates && (cid.Some? ==> x.t.quic)
    requires v == NoteReply(x.t, c, cid)
    requires first == if FirstReplier(x.trail).None? && c in x.t.live then Some(c) else FirstReplier(x.trail)
    ensures v == x.t.(cids := v.cids, responder := v.responder)
    ensures SettleOnReply(v, now) == v.(winner := SettleOnReply(v, now).winner)
    ensures var u := SettleOnReply(v, now).winner;
      if v.winner.IsValid() then u == v.winner
      else if PastWindow(v, now) && v.live != {} then u.IsValid() && Survivor(v.candidates, v.live, first, v.quic, u)
      else !u.IsValid()
  {
    ShapeNoteReply(x.t, c, cid);
    NotedResponder(x, c, cid);
    PastSettles(v, first, now);
  }

  lemma ReplyChooses(x: Tracked, c: AddrPort, data: Payload, now: int)
    requires Inv(x) && Recalls(x) && x.t.started.Some? && c in x.t.candidates
    ensures ReplyWinner(x, c, now, Apply(x, Receive(c, data, now)).t.winner)
  {
    var ids := LongHeaderIds(data);
    var v := NoteReply(x.t, c, ServerCid(x.t, ids));
    var first := if FirstReplier(x.trail).None? && c in x.t.live then Some(c) else FirstReplier(x.trail);
    NotedSettles(x, c, ServerCid(x.t, ids), now, v, first);
    ExaminedWinner(x.t, c, ids, now);
    RepliedWinner(x, c, now, v, first, SettleOnReply(v, now).winner, Examine(x.t, c, ids, now).0.winner);
  }

  lemma NotedResponder(x: Tracked, c: AddrPort, cid: Option<seq<byte>>)
    requires Recalls(x) && Shape(x.t) && c in x.t.candidates
    ensures Responds(NoteReply(x.t, c, cid),
                     if FirstReplier(x.trail).None? && c in x.t.live then Some(c) else FirstReplier(x.trail))
  {
  }

  lemma ExaminedWinner(t: Target, c: AddrPort, ids: Ids, now: int)
    requires t.started.Some?
    ensures var u := SettleOnReply(NoteReply(t, c, ServerCid(t, ids)), now);
      Examine(t, c, ids, now).0.winner == if !u.winner.IsValid() && !u.quic && c in u.live then c else u.winner
  {
  }

  lemma RepliedWinner(x: Tracked, c: AddrPort, now: int, v: Target, first: Option<AddrPort>, u: AddrPort, w: AddrPort)
    requires Recalls(x) && x.t.started.Some? && v == x.t.(cids := v.cids, responder := v.responder)
    requires first == if FirstReplier(x.trail).None? && c in x.t.live then Some(c) else FirstReplier(x.trail)
    requires if v.winner.IsValid() then u == v.winner
      else if PastWindow(v, now) && v.live != {} then u.IsValid() && Survivor(v.candidates, v.live, first, v.quic, u)
      else !u.IsValid()
    requires w == if !u.IsValid() && !v.quic && c in v.live then c else u
    ensures ReplyWinner(x, c, now, w)
  {
  }

  // ---------------------------------------------------------------- failed sends and registrations

  /** One place in the list is left with a live candidate. */
  ghost predicate LoneSurvivor(cands: seq<AddrPort>, live: set<AddrPort>, c: AddrPort) {
    exists k :: 0 <= k < |cands| && cands[k] == c && c in live
      && forall i :: 0 <= i < |cands| && i != k ==> cands[i] !in live
  }

  lemma Rising(at: seq<nat>)
    requires forall i, j :: 0 <= i < j < |at| ==> at[i] < at[j]
    ensures |at| >= 2 ==> at[0] != at[1]
  {
  }

  lemma LoneSurvivorIs(t: Target, c: AddrPort)
    ensures LoneSurvivor(t.candidates, t.live, c) <==> |LiveOf(t.candidates, t.live)| == 1 && FirstLive(t) == c
  {
    var at := PlacesOfLive(t.candidates, t.live);
    LonePlace(t.candidates, t.live, at, c);
  }

  lemma LonePlace(cands: seq<AddrPort>, live: set<AddrPort>, at: seq<nat>, c: AddrPort)
    requires LivePlaces(cands, live, at)
    ensures LoneSurvivor(cands, live, c) <==> |at| == 1 && cands[at[0]] == c
  {
    if k :| 0 <= k < |cands| && cands[k] == c && c in live
            && forall i :: 0 <= i < |cands| && i != k ==> cands[i] !in live {
      assert k in at;
      forall i | 0 <= i < |at| ensures at[i] == k {
        assert at[i] in at;
      }
      Rising(at);
    }
    if |at| == 1 && cands[at[0]] == c {
      assert at[0] in at;
      assert forall i :: 0 <= i < |cands| && i != at[0] ==> i !in at;
    }
  }

  /** Candidates whose sends failed are not live any more, and nobody else changes; after a fan-out
      without QUIC or a winner, a lone survivor wins. */
  lemma FailLeaves(x: Tracked, failed: set<AddrPort>, settle: bool)
    requires Shape(x.t)
    ensures var y := Apply(x, FailSends(failed, settle));
      && y == x.(t := x.t.(live := x.t.live - failed, winner := y.t.winner))
      && var open := settle && failed != {} && !x.t.quic && !x.t.winner.IsValid();
      && (forall c :: open && LoneSurvivor(y.t.candidates, y.t.live, c) ==> y.t.winner == c)
      && (!open || (forall c :: !LoneSurvivor(y.t.candidates, y.t.live, c)) ==> y.t.winner == x.t.winner)
  {
    var u := x.t.(live := x.t.live - failed);
    forall c
      ensures LoneSurvivor(u.candidates, u.live, c) <==> |LiveOf(u.candidates, u.live)| == 1 && FirstLive(u) == c
    {
      LoneSurvivorIs(u, c);
    }
    assert |LiveOf(u.candidates, u.live)| == 1 ==> LoneSurvivor(u.candidates, u.live, FirstLive(u));
  }
}
