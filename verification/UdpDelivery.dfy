/**
 What the DIRECT UDP race does over every run: which datagrams are handed up and under whose
 address, where written datagrams go, who wins, and what registrations and failed sends leave.
 Everything is said in terms of the states before and after a step and of the targets' histories.
 */
module UdpDelivery {
  import opened NetTypes
  import opened QuicHeader
  import opened UdpTarget
  import opened UdpTargetSafety
  import opened UdpDecisions
  import opened UdpRace

  // ---------------------------------------------------------------- one reply, one target

  /** A target that has sent something takes a reply of its winner, and without a winner any reply
      if it speaks QUIC; `y` is the target after the reply. */
  predicate Takes(x: Tracked, y: Tracked, c: AddrPort) {
    x.t.started.Some? && if y.t.winner.IsValid() then y.t.winner == c else y.t.quic
  }

  /** The server ID that a QUIC target learns from a reply. */
  function CarriedId(t: Target, data: Payload): Option<seq<byte>> {
    match LongHeaderIds(data)
    case Some(pair) => if t.quic && pair.1 != [] then Some(pair.1) else None
    case None => None
  }

  /** What an examined reply leaves besides the winner. */
  lemma ReplyLeaves(x: Tracked, c: AddrPort, data: Payload, now: int)
    requires c.IsValid()
    ensures var y := Apply(x, Receive(c, data, now));
      && (x.t.started.None? ==> y == x)
      && (x.t.started.Some? ==> y.trail == x.trail + [Reply(c, c in x.t.live, CarriedId(x.t, data), Takes(x, y, c))])
      && y.t == x.t.(winner := y.t.winner, responder := y.t.responder, cids := y.t.cids)
  {
    TakenIff(x, c, data, now);
    ExamineLeaves(x.t, c, LongHeaderIds(data), now);
    assert ServerCid(x.t, LongHeaderIds(data)) == CarriedId(x.t, data);
  }

  lemma ExamineLeaves(t: Target, c: AddrPort, ids: Ids, now: int)
    ensures var u := Examine(t, c, ids, now).0;
      u == t.(winner := u.winner, responder := u.responder, cids := u.cids)
  {
    if t.started.Some? {
      var v := NoteReply(t, c, ServerCid(t, ids));
      assert v == t.(responder := v.responder, cids := v.cids);
      var w := SettleOnReply(v, now);
      assert w == v.(winner := w.winner);
    }
  }

  lemma TakenIff(x: Tracked, c: AddrPort, data: Payload, now: int)
    requires c.IsValid()
    ensures Examine(x.t, c, LongHeaderIds(data), now).1 <==> Takes(x, Apply(x, Receive(c, data, now)), c)
  {
  }

  /** A target that leaves a reply of `c` to others, and will go on doing so at this moment. */
  predicate Declines(t: Target, c: AddrPort, now: int) {
    || t.started.None?
    || (t.winner.IsValid() && t.winner != c)
    || (!t.winner.IsValid() && !t.quic && c !in t.live && (PastWindow(t, now) ==> t.winner == FirstLive(t)))
  }

  lemma NotTakenDeclines(x: Tracked, c: AddrPort, data: Payload, now: int)
    requires c.IsValid() && !Examine(x.t, c, LongHeaderIds(data), now).1
    ensures Declines(Apply(x, Receive(c, data, now)).t, c, now)
  {
  }

  /** The winner stays, and the history goes on. */
  predicate Stays(x: Tracked, y: Tracked) {
    y.t.started == x.t.started && y.t.quic == x.t.quic && y.t.winner == x.t.winner && x.trail <= y.trail
  }

  lemma DeclinesAgain(x: Tracked, c: AddrPort, data: Payload, now: int)
    requires c.IsValid() && Declines(x.t, c, now)
    ensures var y := Apply(x, Receive(c, data, now));
      && !Examine(x.t, c, LongHeaderIds(data), now).1 && Declines(y.t, c, now)
      && Stays(x, y)
  {
  }

  // ---------------------------------------------------------------- the targets that list the sender

  /** The first of the listed targets that takes the reply. */
  predicate FirstTaker(
    before: map<AddrPort, Tracked>, after: map<AddrPort, Tracked>, refs: seq<AddrPort>, c: AddrPort, k: int)
  {
    && 0 <= k < |refs| && TakenBy(before, after, refs[k], c)
    && forall j :: 0 <= j < k ==> !TakenBy(before, after, refs[j], c)
  }

  predicate TakenBy(before: map<AddrPort, Tracked>, after: map<AddrPort, Tracked>, l: AddrPort, c: AddrPort) {
    l in before && l in after && Takes(before[l], after[l], c)
  }

  /** Targets that decline keep declining through the rest of the scan. */
  lemma {:induction false} ScanDeclines(
    targets: map<AddrPort, Tracked>, refs: seq<AddrPort>, c: AddrPort, data: Payload, now: int, l: AddrPort)
    requires c.IsValid() && l in targets && Declines(targets[l].t, c, now)
    ensures var (after, hit) := Scan(targets, refs, c, data, now);
      hit != Some(l) && l in after && Declines(after[l].t, c, now) && Stays(targets[l], after[l])
    decreases |refs|
  {
    if refs != [] {
      if refs[0] !in targets {
        ScanDeclines(targets, refs[1..], c, data, now, l);
      } else {
        DeclinesAgainAt(targets, refs[0], c, data, now, l);
        ScanDeclines(targets[refs[0] := Apply(targets[refs[0]], Receive(c, data, now))], refs[1..], c, data, now, l);
      }
    }
  }

  lemma DeclinesAgainAt(targets: map<AddrPort, Tracked>, r: AddrPort, c: AddrPort, data: Payload, now: int, l: AddrPort)
    requires c.IsValid() && l in targets && r in targets && Declines(targets[l].t, c, now)
    ensures var more := targets[r := Apply(targets[r], Receive(c, data, now))];
      l in more && Declines(more[l].t, c, now) && Stays(targets[l], more[l])
    ensures r == l ==> !Examine(targets[r].t, c, LongHeaderIds(data), now).1
  {
    if r == l {
      DeclinesAgain(targets[l], c, data, now);
    }
  }

  lemma DeclinersDoNotTake(
    before: map<AddrPort, Tracked>, after: map<AddrPort, Tracked>, l: AddrPort, c: AddrPort, now: int)
    requires l in before && l in after && before[l].t.started == after[l].t.started && Declines(after[l].t, c, now)
    ensures !TakenBy(before, after, l, c)
  {
  }

  /** The target that the scan stops at is the first taker, and it stops at none if there is none. */
  lemma {:induction false} ScanFindsTaker(
    targets: map<AddrPort, Tracked>, refs: seq<AddrPort>, c: AddrPort, data: Payload, now: int)
    requires c.IsValid()
    ensures var (after, hit) := Scan(targets, refs, c, data, now);
      match hit
      case Some(l) => exists k :: FirstTaker(targets, after, refs, c, k) && refs[k] == l
      case None => forall k :: 0 <= k < |refs| ==> !TakenBy(targets, after, refs[k], c)
    decreases |refs|
  {
    if refs != [] {
      var (after, hit) := Scan(targets, refs, c, data, now);
      if refs[0] !in targets {
        ScanFindsTaker(targets, refs[1..], c, data, now);
        ScanAdds(targets, refs[1..], c, data, now, refs[0]);
        TakerShifts(targets, targets, after, refs, c, hit);
      } else {
        var x := targets[refs[0]];
        var y := Apply(x, Receive(c, data, now));
        var more := targets[refs[0] := y];
        TakenIff(x, c, data, now);
        if Examine(x.t, c, LongHeaderIds(data), now).1 {
          assert FirstTaker(targets, after, refs, c, 0);
        } else {
          NotTakenDeclines(x, c, data, now);
          ScanFindsTaker(more, refs[1..], c, data, now);
          ScanDeclines(more, refs[1..], c, data, now, refs[0]);
          ReplyLeaves(x, c, data, now);
          DeclinersDoNotTake(targets, after, refs[0], c, now);
          TakerShifts(targets, more, after, refs, c, hit);
        }
      }
    }
  }

  lemma {:induction false} ScanAdds(
    targets: map<AddrPort, Tracked>, refs: seq<AddrPort>, c: AddrPort, data: Payload, now: int, l: AddrPort)
    ensures l in Scan(targets, refs, c, data, now).0 <==> l in targets
    decreases |refs|
  {
    if refs != [] {
      if refs[0] !in targets {
        ScanAdds(targets, refs[1..], c, data, now, l);
      } else {
        ScanAdds(targets[refs[0] := Apply(targets[refs[0]], Receive(c, data, now))], refs[1..], c, data, now, l);
      }
    }
  }

  /** The first listed target does not take the reply, so that the others decide. */
  lemma TakerShifts(targets: map<AddrPort, Tracked>, more: map<AddrPort, Tracked>, after: map<AddrPort, Tracked>,
                    refs: seq<AddrPort>, c: AddrPort, hit: Option<AddrPort>)
    requires refs != [] && !TakenBy(targets, after, refs[0], c)
    requires more.Keys == targets.Keys && forall l :: l in targets ==> more[l].t.started == targets[l].t.started
    requires match hit
      case Some(l) => exists k :: FirstTaker(more, after, refs[1..], c, k) && refs[1..][k] == l
      case None => forall k :: 0 <= k < |refs[1..]| ==> !TakenBy(more, after, refs[1..][k], c)
    ensures match hit
      case Some(l) => exists k :: FirstTaker(targets, after, refs, c, k) && refs[k] == l
      case None => forall k :: 0 <= k < |refs| ==> !TakenBy(targets, after, refs[k], c)
  {
    assert forall l :: TakenBy(more, after, l, c) <==> TakenBy(targets, after, l, c);
    assert forall k :: 0 < k < |refs| ==> refs[k] == refs[1..][k - 1];
    if hit.Some? {
      var k :| FirstTaker(more, after, refs[1..], c, k) && refs[1..][k] == hit.value;
      assert FirstTaker(targets, after, refs, c, k + 1);
    }
  }

  /** What the reader hands up for a datagram, given the targets before and after. */
  ghost predicate HandsUp(s: Conn, u: Conn, from: NetAddr) {
    match from
    case Other => u.surfaced == s.surfaced + [Raw(from)]
    case Udp(at) =>
      var c := at.Unmap();
      if c !in s.sources then u.surfaced == s.surfaced + [Raw(from)]
      else
        && (forall k :: FirstTaker(s.targets, u.targets, s.sources[c], c, k) ==>
              u.surfaced == s.surfaced + if s.sources[c][k].IsValid() then [Attributed(s.sources[c][k], c)] else [])
        && ((forall k :: !FirstTaker(s.targets, u.targets, s.sources[c], c, k)) ==> u.surfaced == s.surfaced)
  }

  lemma ReadHandsUp(s: Conn, from: NetAddr, data: Payload, now: int)
    requires from.Udp? && TargetsOf(s.sources, from.at.Unmap()) != [] ==> from.at.Unmap().IsValid()
    ensures HandsUp(s, ReadStep(s, from, data, now), from)
  {
    if from.Udp? {
      var c := from.at.Unmap();
      if c in s.sources {
        var (after, hit) := Scan(s.targets, s.sources[c], c, data, now);
        if s.sources[c] != [] {
          ScanFindsTaker(s.targets, s.sources[c], c, data, now);
        }
        OneFirstTaker(s.targets, after, s.sources[c], c);
        ReportsTaker(s, after, from, c, hit);
      }
    }
  }

  lemma ReportsTaker(s: Conn, after: map<AddrPort, Tracked>, from: NetAddr, c: AddrPort, hit: Option<AddrPort>)
    requires from.Udp? && c == from.at.Unmap() && c in s.sources
    requires forall j, k ::
      FirstTaker(s.targets, after, s.sources[c], c, j) && FirstTaker(s.targets, after, s.sources[c], c, k) ==> j == k
    requires match hit
      case Some(l) => exists k :: FirstTaker(s.targets, after, s.sources[c], c, k) && s.sources[c][k] == l
      case None => forall k :: 0 <= k < |s.sources[c]| ==> !TakenBy(s.targets, after, s.sources[c][k], c)
    ensures HandsUp(s, s.(targets := after, surfaced := s.surfaced + Reported(from, c, true, hit)), from)
  {
    assert s.surfaced + [] == s.surfaced;
    if hit.Some? {
      var k :| FirstTaker(s.targets, after, s.sources[c], c, k) && s.sources[c][k] == hit.value;
    }
  }

  lemma OneFirstTaker(before: map<AddrPort, Tracked>, after: map<AddrPort, Tracked>, refs: seq<AddrPort>, c: AddrPort)
    ensures forall j, k :: FirstTaker(before, after, refs, c, j) && FirstTaker(before, after, refs, c, k) ==> j == k
  {
  }

  lemma SendersAreValid(s: Conn, c: AddrPort)
    requires ConnInv(s) && c in s.sources && s.sources[c] != []
    ensures c.IsValid()
  {
    var l := s.sources[c][0];
    assert l in s.sources[c];
    BornInv(s.targets[l]);
  }

  // ---------------------------------------------------------------- whole runs

  /** In every run, a datagram is handed up as the first of its sender's targets that takes it says:
      under that target's address, not at all if none does, and as it came if nobody lists its sender. */
  lemma RepliesAreHandedUp(states: seq<Conn>, steps: seq<Step>, i: nat)
    requires IsRun(states, steps) && i < |steps| && steps[i].Read?
    ensures HandsUp(states[i], states[i + 1], steps[i].from)
  {
    RunInv(states, steps, i);
    var s, from := states[i], steps[i].from;
    if from.Udp? && TargetsOf(s.sources, from.at.Unmap()) != [] {
      SendersAreValid(s, from.at.Unmap());
    }
    ReadHandsUp(s, from, steps[i].payload, steps[i].now);
  }

  /** Nothing else is ever handed up. */
  lemma OnlyRepliesAreHandedUp(states: seq<Conn>, steps: seq<Step>, i: nat)
    requires IsRun(states, steps) && i < |steps| && !steps[i].Read?
    ensures states[i + 1].surfaced == states[i].surfaced
  {
  }

  /** A target that got to see the reply: it is listed no later than the one that takes it. */
  ghost predicate Examined(
    before: map<AddrPort, Tracked>, after: map<AddrPort, Tracked>, refs: seq<AddrPort>, c: AddrPort, l: AddrPort)
  {
    exists j :: 0 <= j < |refs| && refs[j] == l && forall k :: 0 <= k < j ==> !TakenBy(before, after, refs[k], c)
  }

  /** What a reply leaves of a target that examines it. */
  ghost predicate AnsweredAs(x: Tracked, y: Tracked, c: AddrPort, data: Payload, now: int) {
    if x.t.started.None? then y == x
    else
      && x.trail < y.trail && y.trail[|x.trail|] == Reply(c, c in x.t.live, CarriedId(x.t, data), Takes(x, y, c))
      && ReplyWinner(x, c, now, y.t.winner)
  }

  lemma AnswerStays(x: Tracked, y: Tracked, z: Tracked, c: AddrPort, data: Payload, now: int)
    requires AnsweredAs(x, y, c, data, now) && x.t.started.Some? && Stays(y, z)
    ensures AnsweredAs(x, z, c, data, now)
  {
  }

  lemma ReplyAnswers(x: Tracked, c: AddrPort, data: Payload, now: int)
    requires Inv(x) && Recalls(x) && c in x.t.candidates
    ensures AnsweredAs(x, Apply(x, Receive(c, data, now)), c, data, now)
  {
    ReplyLeaves(x, c, data, now);
    if x.t.started.Some? {
      ReplyChooses(x, c, data, now);
    }
  }

  lemma {:induction false} ScanAnswers(
    targets: map<AddrPort, Tracked>, refs: seq<AddrPort>, c: AddrPort, data: Payload, now: int, l: AddrPort)
    requires l in targets && Inv(targets[l]) && Recalls(targets[l]) && c in targets[l].t.candidates
    ensures var after := Scan(targets, refs, c, data, now).0;
      && l in after
      && if Examined(targets, after, refs, c, l) then AnsweredAs(targets[l], after[l], c, data, now)
         else after[l] == targets[l]
    decreases |refs|
  {
    var after := Scan(targets, refs, c, data, now).0;
    if refs != [] {
      if refs[0] !in targets {
        ScanAnswers(targets, refs[1..], c, data, now, l);
        ScanAdds(targets, refs[1..], c, data, now, refs[0]);
        ExaminedShifts(targets, targets, after, refs, c, l);
      } else {
        var x := targets[refs[0]];
        var y := Apply(x, Receive(c, data, now));
        var more := targets[refs[0] := y];
        TakenIff(x, c, data, now);
        ReplyLeaves(x, c, data, now);
        if refs[0] == l {
          ReplyAnswers(x, c, data, now);
          assert Examined(targets, after, refs, c, l);
          if !Examine(x.t, c, LongHeaderIds(data), now).1 {
            NotTakenDeclines(x, c, data, now);
            ScanDeclines(more, refs[1..], c, data, now, l);
            if x.t.started.Some? {
              AnswerStays(x, y, after[l], c, data, now);
            } else {
              ScanSkips(more, refs[1..], c, data, now, l);
            }
          }
        } else if Examine(x.t, c, LongHeaderIds(data), now).1 {
          assert TakenBy(targets, after, refs[0], c);
          assert !Examined(targets, after, refs, c, l);
        } else {
          NotTakenDeclines(x, c, data, now);
          ScanAnswers(more, refs[1..], c, data, now, l);
          ScanDeclines(more, refs[1..], c, data, now, refs[0]);
          DeclinersDoNotTake(targets, after, refs[0], c, now);
          ExaminedShifts(targets, more, after, refs, c, l);
        }
      }
    }
  }

  /** A target that has sent nothing is passed over. */
  lemma {:induction false} ScanSkips(
    targets: map<AddrPort, Tracked>, refs: seq<AddrPort>, c: AddrPort, data: Payload, now: int, l: AddrPort)
    requires l in targets && targets[l].t.started.None?
    ensures var after := Scan(targets, refs, c, data, now).0; l in after && after[l] == targets[l]
    decreases |refs|
  {
    if refs != [] {
      if refs[0] !in targets {
        ScanSkips(targets, refs[1..], c, data, now, l);
      } else {
        ScanSkips(targets[refs[0] := Apply(targets[refs[0]], Receive(c, data, now))], refs[1..], c, data, now, l);
      }
    }
  }

  lemma ExaminedShifts(targets: map<AddrPort, Tracked>, more: map<AddrPort, Tracked>, after: map<AddrPort, Tracked>,
                       refs: seq<AddrPort>, c: AddrPort, l: AddrPort)
    requires refs != [] && refs[0] != l && !TakenBy(targets, after, refs[0], c)
    requires more.Keys == targets.Keys && forall r :: r in targets ==> more[r].t.started == targets[r].t.started
    ensures Examined(targets, after, refs, c, l) <==> Examined(more, after, refs[1..], c, l)
  {
    assert forall r :: TakenBy(more, after, r, c) <==> TakenBy(targets, after, r, c);
    assert forall k :: 0 < k < |refs| ==> refs[k] == refs[1..][k - 1];
    if j :| 0 <= j < |refs| && refs[j] == l && forall k :: 0 <= k < j ==> !TakenBy(targets, after, refs[k], c) {
      assert refs[1..][j - 1] == l;
    }
    if j :| 0 <= j < |refs[1..]| && refs[1..][j] == l
            && forall k :: 0 <= k < j ==> !TakenBy(more, after, refs[1..][k], c) {
      assert refs[j + 1] == l;
    }
  }

  /** In every run, a reply reaches the listed targets up to the one that takes it: each of them notes
      it and gets the winner its history calls for. All other targets stay as they are. */
  lemma RepliesAreExamined(states: seq<Conn>, steps: seq<Step>, i: nat, l: AddrPort)
    requires IsRun(states, steps) && i < |steps| && steps[i].Read? && steps[i].from.Udp? && l in states[i].targets
    ensures var (s, u, c) := (states[i], states[i + 1], steps[i].from.at.Unmap());
      && l in u.targets
      && if Examined(s.targets, u.targets, TargetsOf(s.sources, c), c, l)
         then AnsweredAs(s.targets[l], u.targets[l], c, steps[i].payload, steps[i].now)
         else u.targets[l] == s.targets[l]
  {
    RunInv(states, steps, i);
    var s, c := states[i], steps[i].from.at.Unmap();
    BornInv(s.targets[l]);
    BornRecalls(s.targets[l]);
    if c in s.targets[l].t.candidates {
      ScanAnswers(s.targets, TargetsOf(s.sources, c), c, steps[i].payload, steps[i].now, l);
    } else {
      ScanElsewhere(s.targets, TargetsOf(s.sources, c), c, steps[i].payload, steps[i].now, l);
    }
  }

  lemma {:induction false} ScanElsewhere(
    targets: map<AddrPort, Tracked>, refs: seq<AddrPort>, c: AddrPort, data: Payload, now: int, l: AddrPort)
    requires l in targets && l !in refs
    ensures var after := Scan(targets, refs, c, data, now).0; l in after && after[l] == targets[l]
    decreases |refs|
  {
    if refs != [] {
      if refs[0] !in targets {
        ScanElsewhere(targets, refs[1..], c, data, now, l);
      } else {
        ScanElsewhere(targets[refs[0] := Apply(targets[refs[0]], Receive(c, data, now))], refs[1..], c, data, now, l);
      }
    }
  }

  /** In every run, a written datagram goes to the winner its target has afterwards, or to every live
      candidate if there is none; the winner is the one the history calls for; a warm preference is
      stored exactly with the first proof of the winner. */
  lemma WritesAreDecided(states: seq<Conn>, steps: seq<Step>, i: nat)
    requires IsRun(states, steps) && i < |steps| && steps[i].Write?
    ensures var (s, u, l, payload) := (states[i], states[i + 1], steps[i].addr.Unmap(), steps[i].payload);
      if l !in s.targets then u == s
      else
        && l in u.targets && u == s.(targets := s.targets[l := u.targets[l]])
        && WrittenAs(s.targets[l], u.targets[l], payload, steps[i].now)
  {
    RunInv(states, steps, i);
    var l := steps[i].addr.Unmap();
    if l in states[i].targets {
      var x := states[i].targets[l];
      BornInv(x);
      BornRecalls(x);
      WriteLeaves(x, steps[i].payload, steps[i].now);
      WriteChooses(x, steps[i].payload, steps[i].now);
      WriteKeepsOpenings(x.t, LongHeaderIds(steps[i].payload), steps[i].payload, steps[i].now);
    }
  }

  /** What a write leaves of its target. */
  ghost predicate WrittenAs(x: Tracked, y: Tracked, payload: Payload, now: int) {
    && |y.trail| == |x.trail| + 1 && x.trail <= y.trail && y.trail[|x.trail|].Wrote?
    && var d := y.trail[|x.trail|].decision;
    && y.trail[|x.trail|].payload == payload && Sends(y.t, d)
    && WriteWinner(x, payload, now, y.t.winner)
    && (d.ToWinner? && d.store.Some? <==>
          Proves(x.t, payload) && forall i :: 0 <= i < |x.trail| ==> !IsStore(x.trail[i]))
    && (d.ToWinner? && d.store.Some? ==> d.store.value == x.t.winner.addr)
    && y.t.started == (if x.t.started.Some? || y.t.winner.IsValid() then x.t.started else Some(now))
    && y.t.candidates == x.t.candidates && y.t.live == x.t.live && y.t.cids == x.t.cids
    && y.t.replay == if y.t.winner.IsValid() then []
                     else if x.t.collecting && |x.t.replay| < 4 && TotalSize(x.t.replay) + |payload| <= 16384
                     then x.t.replay + [payload]
                     else x.t.replay
  }

  // ---------------------------------------------------------------- registrations and failed sends

  /** A candidate offered at this place for the first time, of an open family and not live yet. */
  predicate FirstOffer(cands: seq<AddrPort>, live: set<AddrPort>, families: set<int>, k: int) {
    && 0 <= k < |cands| && cands[k] !in live && (if cands[k].addr.V4? then 4 else 6) in families
    && forall j :: 0 <= j < k ==> cands[j] != cands[k]
  }

  /** Exactly the first offers, in the order they were made. */
  ghost predicate OfferedInOrder(
    cands: seq<AddrPort>, live: set<AddrPort>, families: set<int>, added: seq<AddrPort>, at: seq<nat>)
  {
    && (forall i, j :: 0 <= i < j < |at| ==> at[i] < at[j])
    && (forall k :: FirstOffer(cands, live, families, k) <==> k in at)
    && StandAt(cands, at, added)
  }

  ghost predicate Offered(cands: seq<AddrPort>, live: set<AddrPort>, families: set<int>, added: seq<AddrPort>) {
    exists at :: OfferedInOrder(cands, live, families, added, at)
  }

  lemma {:induction false} AddedPlaces(live: set<AddrPort>, families: set<int>, cands: seq<AddrPort>)
    returns (at: seq<nat>)
    ensures OfferedInOrder(cands, live, families, Added(live, families, cands), at)
  {
    if cands == [] {
      at := [];
    } else {
      var n := |cands| - 1;
      var front := cands[..n];
      at := AddedPlaces(live, families, front);
      AddedIs(live, families, front);
      OfferShorter(cands, live, families);
      LastOffer(cands, live, families);
      var added := Added(live, families, front);
      assert StandAt(cands, at, added);
      if FirstOffer(cands, live, families, n) {
        OneOfferMore(cands, live, families, added, at);
        at := at + [n];
      }
    }
  }

  lemma OfferShorter(cands: seq<AddrPort>, live: set<AddrPort>, families: set<int>)
    requires cands != []
    ensures var n := |cands| - 1;
      forall k :: k < n ==> (FirstOffer(cands, live, families, k) <==> FirstOffer(cands[..n], live, families, k))
  {
  }

  lemma LastOffer(cands: seq<AddrPort>, live: set<AddrPort>, families: set<int>)
    requires cands != []
    ensures var (n, c) := (|cands| - 1, cands[|cands| - 1]);
      FirstOffer(cands, live, families, n) <==>
        Family(c) in families && c !in live && c !in Added(live, families, cands[..n])
  {
    var n := |cands| - 1;
    AddedIs(live, families, cands[..n]);
    assert cands[n] in cands[..n] <==> exists j :: 0 <= j < n && cands[j] == cands[n];
  }

  lemma OneOfferMore(cands: seq<AddrPort>, live: set<AddrPort>, families: set<int>, added: seq<AddrPort>, at: seq<nat>)
    requires cands != [] && FirstOffer(cands, live, families, |cands| - 1)
    requires OfferedInOrder(cands[..|cands| - 1], live, families, added, at)
    ensures OfferedInOrder(cands, live, families, added + [cands[|cands| - 1]], at + [|cands| - 1])
  {
    var n := |cands| - 1;
    OfferShorter(cands, live, families);
    forall k ensures FirstOffer(cands, live, families, k) <==> k in at + [n] {
      assert FirstOffer(cands[..n], live, families, k) <==> k in at;
    }
  }

  /** A target still takes candidates: the same request, undecided, within the window. */
  predicate Accepts(s: Conn, l: AddrPort, host: string, adapter: string, now: int) {
    l in s.targets ==>
      var x := s.targets[l];
      && x.t.host == host && x.t.adapter == adapter && !x.t.winner.IsValid()
      && (x.t.started.Some? ==> now - x.t.started.value < if SpeaksQuic(x.trail) then 900 else 300)
  }

  function TargetBefore(s: Conn, l: AddrPort): (seq<AddrPort>, set<AddrPort>) {
    if l in s.targets then (s.targets[l].t.candidates, s.targets[l].t.live) else ([], {})
  }

  /** What a registration leaves: nothing new, or the usable offers listed behind the target's
      candidates, live, and the target behind the others at each of them. */
  ghost predicate RegisteredAs(
    s: Conn, u: Conn, l: AddrPort, cands: seq<AddrPort>, host: string, adapter: string, added: seq<AddrPort>)
  {
    var (candidates, live) := TargetBefore(s, l);
    && Offered(cands, live, s.families, added)
    && if candidates + added == [] then u == s
       else
         && l in u.targets && u == s.(targets := s.targets[l := u.targets[l]], sources := u.sources)
         && u.targets[l].t.candidates == candidates + added && u.targets[l].t.live == live + (set c | c in added)
         && (l in s.targets ==> u.targets[l].t == s.targets[l].t.(candidates := candidates + added,
               live := live + (set c | c in added), bytes := u.targets[l].t.bytes))
         && (l !in s.targets ==>
               u.targets[l].t == NewTarget(host, adapter).(candidates := added, live := set c | c in added))
         && forall c :: TargetsOf(u.sources, c) == TargetsOf(s.sources, c) + if c in added then [l] else []
  }

  lemma {:induction false} LinksInOrder(
    sources: map<AddrPort, seq<AddrPort>>, added: seq<AddrPort>, l: AddrPort, c: AddrPort)
    requires forall i, j :: 0 <= i < j < |added| ==> added[i] != added[j]
    ensures TargetsOf(Link(sources, added, l), c) == TargetsOf(sources, c) + if c in added then [l] else []
  {
    if added != [] {
      LinksInOrder(sources, added[..|added| - 1], l, c);
    }
  }

  /** In every run, a registration adds candidates exactly when the connection is open, has a socket
      and the target still accepts them. */
  lemma RegistrationsAdd(states: seq<Conn>, steps: seq<Step>, i: nat)
    requires IsRun(states, steps) && i < |steps| && steps[i].Register?
    ensures var (s, u, step) := (states[i], states[i + 1], steps[i]);
      if s.closed || s.families == {} || !Accepts(s, step.logical, step.host, step.adapter, step.now) then u == s
      else exists added :: RegisteredAs(s, u, step.logical, step.cands, step.host, step.adapter, added)
  {
    RunInv(states, steps, i);
    var s, step := states[i], steps[i];
    var l := step.logical;
    if l in s.targets {
      BornRecalls(s.targets[l]);
    }
    var x := TargetFor(s, l, step.host, step.adapter);
    if !s.closed && s.families != {} && Accepts(s, l, step.host, step.adapter, step.now) {
      RegisterAdds(s, l, step.cands, step.host, step.adapter, step.now);
    }
  }

  lemma RegisterAdds(s: Conn, l: AddrPort, cands: seq<AddrPort>, host: string, adapter: string, now: int)
    requires !s.closed && s.families != {} && AcceptsCandidates(TargetFor(s, l, host, adapter).t, host, adapter, now)
    ensures var u := RegisterStep(s, l, cands, host, adapter, now).0;
      exists added :: RegisteredAs(s, u, l, cands, host, adapter, added)
  {
    var x, u := TargetFor(s, l, host, adapter), RegisterStep(s, l, cands, host, adapter, now).0;
    var added := Added(x.t.live, s.families, cands);
    AddedIsOffered(x.t.live, s.families, cands);
    if x.t.candidates + added == [] {
      assert u == s;
      assert RegisteredAs(s, u, l, cands, host, adapter, added);
    } else {
      AddedIs(x.t.live, s.families, cands);
      AllLinked(s.sources, added, l);
      NewTargetTakes(host, adapter, added);
      RegistersAs(s, u, l, cands, host, adapter, added, x, RegisterTracked(x, added), Link(s.sources, added, l));
    }
  }

  lemma RegistersAs(s: Conn, u: Conn, l: AddrPort, cands: seq<AddrPort>, host: string, adapter: string,
                    added: seq<AddrPort>, x: Tracked, y: Tracked, links: map<AddrPort, seq<AddrPort>>)
    requires if l in s.targets then x == s.targets[l] else x.t == NewTarget(host, adapter)
    requires Offered(cands, x.t.live, s.families, added) && x.t.candidates + added != []
    requires u == s.(targets := s.targets[l := y], sources := links)
    requires y.t == x.t.(candidates := x.t.candidates + added, live := x.t.live + (set c | c in added),
                         bytes := y.t.bytes)
    requires l !in s.targets ==> y.t == NewTarget(host, adapter).(candidates := added, live := set c | c in added)
    requires forall c :: TargetsOf(links, c) == TargetsOf(s.sources, c) + if c in added then [l] else []
    ensures RegisteredAs(s, u, l, cands, host, adapter, added)
  {
  }

  lemma AddedIsOffered(live: set<AddrPort>, families: set<int>, cands: seq<AddrPort>)
    ensures Offered(cands, live, families, Added(live, families, cands))
  {
    var at := AddedPlaces(live, families, cands);
  }

  lemma AllLinked(sources: map<AddrPort, seq<AddrPort>>, added: seq<AddrPort>, l: AddrPort)
    requires forall i, j :: 0 <= i < j < |added| ==> added[i] != added[j]
    ensures forall c :: TargetsOf(Link(sources, added, l), c) == TargetsOf(sources, c) + if c in added then [l] else []
  {
    forall c ensures TargetsOf(Link(sources, added, l), c) == TargetsOf(sources, c) + if c in added then [l] else [] {
      LinksInOrder(sources, added, l, c);
    }
  }

  lemma NewTargetTakes(host: string, adapter: string, added: seq<AddrPort>)
    ensures AddCandidates(NewTarget(host, adapter), added) ==
      NewTarget(host, adapter).(candidates := added, live := set c | c in added)
  {
  }

  /** In every run, failed sends end the liveness of exactly those candidates, and decide the race
      only for a lone survivor of a fan-out without QUIC. */
  lemma FailuresSettle(states: seq<Conn>, steps: seq<Step>, i: nat)
    requires IsRun(states, steps) && i < |steps| && steps[i].FailSends? && steps[i].logical in states[i].targets
    ensures var (s, u, l, failed) := (states[i], states[i + 1], steps[i].logical, steps[i].failed);
      && l in u.targets && u == s.(targets := s.targets[l := u.targets[l]])
      && var (x, y) := (s.targets[l], u.targets[l]);
      && y == x.(t := x.t.(live := x.t.live - failed, winner := y.t.winner))
      && var open := steps[i].settle && failed != {} && !SpeaksQuic(x.trail) && !x.t.winner.IsValid();
      && (forall c :: open && LoneSurvivor(y.t.candidates, y.t.live, c) ==> y.t.winner == c)
      && (!open || (forall c :: !LoneSurvivor(y.t.candidates, y.t.live, c)) ==> y.t.winner == x.t.winner)
  {
    RunInv(states, steps, i);
    var x := states[i].targets[steps[i].logical];
    BornInv(x);
    BornRecalls(x);
    FailLeaves(x, steps[i].failed, steps[i].settle);
  }
}
