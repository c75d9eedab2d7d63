/**
 One logical destination of the DIRECT UDP race (`directUDPTarget`): the state kept
 for it and the effect each mutex-held section of `register`, `WriteTo` and
 `WaitReadFrom` has on it.
 */
module UdpTarget {
  import opened NetTypes

  const RACE_DATAGRAMS := 4
  const RACE_BYTES := 16 * 1024
  const RACE_WINDOW := 300
  const QUIC_WINDOW := 3 * RACE_WINDOW
  const SERVER_CID_LIMIT := 32

  type Payload = seq<byte>

  /** What `LongHeaderIds` reported for a packet: destination and source ID of a long header. */
  type Ids = Option<(seq<byte>, seq<byte>)>

  /** `live` holds the keys of the source's `live` map, whose values are always true. */
  datatype Target = Target(
    candidates: seq<AddrPort>,
    live: set<AddrPort>,
    winner: AddrPort,
    started: Option<int>,
    datagrams: nat,
    bytes: nat,
    host: string,
    adapter: string,
    quic: bool,
    quicConfirmed: bool,
    responder: AddrPort,
    cids: map<seq<byte>, AddrPort>,
    collecting: bool,
    replay: seq<Payload>,
    replayBytes: nat)

  function NewTarget(host: string, adapter: string): Target {
    Target([], {}, UNSET, None, 0, 0, host, adapter, false, false, UNSET, map[], false, [], 0)
  }

  /** Where one application datagram goes; `store` is the warm preference it confirms. */
  datatype Decision =
    | ToWinner(to: AddrPort, store: Option<Addr>)
    | ToAll(copies: seq<AddrPort>)

  // ---------------------------------------------------------------- candidates

  predicate AcceptsCandidates(t: Target, host: string, adapter: string, now: int) {
    var window := if t.quic then QUIC_WINDOW else RACE_WINDOW;
    && t.host == host && t.adapter == adapter && !t.winner.IsValid()
    && (t.started.None? || now - t.started.value < window)
  }

  function Family(c: AddrPort): int {
    if c.addr.Is4() then 4 else 6
  }

  /** The candidates that become live: usable family, not live already, first occurrence. */
  function Added(live: set<AddrPort>, families: set<int>, cands: seq<AddrPort>): (r: seq<AddrPort>)
    ensures forall c :: c in r ==> c in cands && c !in live
  {
    if cands == [] then []
    else
      var r := Added(live, families, cands[..|cands| - 1]);
      var c := cands[|cands| - 1];
      if Family(c) !in families || c in live || c in r then r else r + [c]
  }

  /** Exactly the offered candidates of an open family that are not live yet, each once. */
  lemma {:induction false} AddedIs(live: set<AddrPort>, families: set<int>, cands: seq<AddrPort>)
    ensures var r := Added(live, families, cands);
      && (forall c :: c in r <==> c in cands && c !in live && Family(c) in families)
      && (forall i, j :: 0 <= i < j < |r| ==> r[i] != r[j])
  {
    if cands != [] {
      AddedIs(live, families, cands[..|cands| - 1]);
    }
  }

  /** How many opening datagrams are replayed to `n` late candidates within the byte budget. */
  function Replayed(bytes: nat, replay: seq<Payload>, n: nat): (k: nat)
    ensures k <= |replay|
    decreases |replay|
  {
    if replay == [] || bytes + |replay[0]| * n > RACE_BYTES then 0
    else 1 + Replayed(bytes + |replay[0]| * n, replay[1..], n)
  }

  function ReplayCost(replay: seq<Payload>, n: nat): nat {
    if replay == [] then 0 else |replay[0]| * n + ReplayCost(replay[1..], n)
  }

  /** The replay stops only where the next datagram would exceed the budget. */
  lemma {:induction false} ReplayIsLongest(bytes: nat, replay: seq<Payload>, n: nat)
    ensures var k := Replayed(bytes, replay, n);
      k < |replay| ==> bytes + ReplayCost(replay[..k], n) + |replay[k]| * n > RACE_BYTES
    decreases |replay|
  {
    if replay != [] && bytes + |replay[0]| * n <= RACE_BYTES {
      ReplayIsLongest(bytes + |replay[0]| * n, replay[1..], n);
      var k := Replayed(bytes, replay, n);
      assert replay[..k][1..] == replay[1..][..k - 1];
    }
  }

  function AddCandidates(t: Target, added: seq<AddrPort>): (r: Target) {
    var k := Replayed(t.bytes, t.replay, |added|);
    t.(candidates := t.candidates + added,
       live := t.live + (set c | c in added),
       bytes := t.bytes + ReplayCost(t.replay[..k], |added|))
  }

  // ---------------------------------------------------------------- settling

  /** The live candidates in list order (a re-registered one is listed again). */
  function LiveOf(cands: seq<AddrPort>, live: set<AddrPort>): (r: seq<AddrPort>)
    ensures |r| <= |cands|
    ensures forall c :: c in r <==> c in cands && c in live
  {
    if cands == [] then []
    else (if cands[0] in live then [cands[0]] else []) + LiveOf(cands[1..], live)
  }

  function FirstLive(t: Target): AddrPort {
    var l := LiveOf(t.candidates, t.live);
    if l == [] then UNSET else l[0]
  }

  /** The earliest listed live candidate, or the unset address when none is live. */
  lemma {:induction false} FirstLiveIs(t: Target)
    ensures match FirstLiveAt(t.candidates, t.live)
            case None => FirstLive(t) == UNSET && forall i :: 0 <= i < |t.candidates| ==> t.candidates[i] !in t.live
            case Some(k) =>
              k < |t.candidates| && FirstLive(t) == t.candidates[k] && t.candidates[k] in t.live
              && forall i :: 0 <= i < k ==> t.candidates[i] !in t.live
  {
    FirstLiveAtIs(t.candidates, t.live);
  }

  function FirstLiveAt(cands: seq<AddrPort>, live: set<AddrPort>): Option<nat> {
    if cands == [] then None
    else if cands[0] in live then Some(0)
    else match FirstLiveAt(cands[1..], live) case None => None case Some(k) => Some(k + 1)
  }

  lemma {:induction false} FirstLiveAtIs(cands: seq<AddrPort>, live: set<AddrPort>)
    ensures match FirstLiveAt(cands, live)
            case None => LiveOf(cands, live) == [] && forall i :: 0 <= i < |cands| ==> cands[i] !in live
            case Some(k) =>
              k < |cands| && cands[k] in live && LiveOf(cands, live) != [] && LiveOf(cands, live)[0] == cands[k]
              && forall i :: 0 <= i < k ==> cands[i] !in live
  {
    if cands != [] && cands[0] !in live {
      FirstLiveAtIs(cands[1..], live);
      assert forall i :: 0 < i < |cands| ==> cands[i] == cands[1..][i - 1];
    }
  }

  function Settled(t: Target): AddrPort {
    if t.responder.IsValid() && t.responder in t.live then t.responder else FirstLive(t)
  }

  /** Failed sends stop being live; after a fan-out a lone survivor of a non-QUIC race wins. */
  function Fail(t: Target, failed: set<AddrPort>, settle: bool): Target {
    var u := t.(live := t.live - failed);
    if settle && failed != {} && !u.quic && !u.winner.IsValid() && |LiveOf(u.candidates, u.live)| == 1
    then u.(winner := FirstLive(u))
    else u
  }

  // ---------------------------------------------------------------- writing

  predicate Carries(payload: Payload, cid: seq<byte>) {
    |payload| >= 1 + |cid| && payload[1..1 + |cid|] == cid
  }

  /** A 1-RTT packet carrying a connection ID that names the current winner. */
  predicate Confirms(t: Target, ids: Ids, payload: Payload) {
    && ids.None?
    && t.quic && t.winner.IsValid() && !t.quicConfirmed
    && exists cid :: cid in t.cids && t.cids[cid] == t.winner && Carries(payload, cid)
  }

  function NoteQuic(t: Target, ids: Ids, payload: Payload): Target {
    match ids
    case Some(pair) =>
      if pair.0 in t.cids && t.cids[pair.0].IsValid()
      then t.(quic := true, winner := t.cids[pair.0])
      else t.(quic := true)
    case None =>
      if Confirms(t, ids, payload) then t.(quicConfirmed := true) else t
  }

  /** A write ends the race by time or, without QUIC, by the datagram and byte budgets. */
  function SettleOnWrite(t: Target, size: nat, now: int): Target {
    if t.winner.IsValid() || t.started.None? then t
    else if t.quic then
      if now - t.started.value >= QUIC_WINDOW then t.(winner := Settled(t)) else t
    else if
      || now - t.started.value >= RACE_WINDOW
      || t.datagrams >= RACE_DATAGRAMS
      || t.bytes + size * |t.candidates| > RACE_BYTES
    then t.(winner := FirstLive(t))
    else t
  }

  function FanOut(t: Target, payload: Payload, now: int): Target {
    var copies := LiveOf(t.candidates, t.live);
    var keep := t.collecting && |t.replay| < RACE_DATAGRAMS && t.replayBytes + |payload| <= RACE_BYTES;
    t.(started := if t.started.None? then Some(now) else t.started,
       datagrams := t.datagrams + 1,
       bytes := t.bytes + |payload| * |copies|,
       replay := if keep then t.replay + [payload] else t.replay,
       replayBytes := if keep then t.replayBytes + |payload| else t.replayBytes)
  }

  function Write(t: Target, ids: Ids, payload: Payload, now: int): (Target, Decision) {
    var u := SettleOnWrite(NoteQuic(t, ids, payload), |payload|, now);
    if u.winner.IsValid() then
      (u.(replay := [], replayBytes := 0),
       ToWinner(u.winner, if Confirms(t, ids, payload) then Some(t.winner.addr) else None))
    else
      (FanOut(u, payload, now), ToAll(LiveOf(u.candidates, u.live)))
  }

  // ---------------------------------------------------------------- reading

  /** The server connection ID of a reply that a QUIC target records. */
  function ServerCid(t: Target, ids: Ids): Option<seq<byte>> {
    if t.quic && ids.Some? && ids.value.1 != [] then Some(ids.value.1) else None
  }

  /** A second source for the same ID makes it ambiguous; a full table takes no new IDs. */
  function NoteCid(cids: map<seq<byte>, AddrPort>, cid: seq<byte>, source: AddrPort): map<seq<byte>, AddrPort> {
    if cid in cids then
      if !cids[cid].IsValid() || cids[cid] != source then cids[cid := UNSET] else cids
    else if |cids| < SERVER_CID_LIMIT then cids[cid := source]
    else cids
  }

  function SettleOnReply(t: Target, now: int): Target
    requires t.started.Some?
  {
    if t.winner.IsValid() then t
    else if t.quic then
      if now - t.started.value >= QUIC_WINDOW then t.(winner := Settled(t)) else t
    else
      if now - t.started.value >= RACE_WINDOW then t.(winner := FirstLive(t)) else t
  }

  function NoteReply(t: Target, source: AddrPort, cid: Option<seq<byte>>): Target {
    var u := if cid.Some? then t.(cids := NoteCid(t.cids, cid.value, source)) else t;
    if source in u.live && !u.responder.IsValid() then u.(responder := source) else u
  }

  /** One turn of the loop in `WaitReadFrom`; the flag says the reply is handed up. */
  function Examine(t: Target, source: AddrPort, ids: Ids, now: int): (Target, bool) {
    if t.started.None? then (t, false)
    else
      var u := SettleOnReply(NoteReply(t, source, ServerCid(t, ids)), now);
      if u.winner.IsValid() then (u, u.winner == source)
      else if u.quic then (u, true)
      else if source in u.live then (u.(winner := source), true)
      else (u, false)
  }
}
