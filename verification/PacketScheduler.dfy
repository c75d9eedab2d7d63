/**
 The UDP packet sender: `Send`, `Close` and the event loop `processPreparedPackets`
 with its resolver workers, as one state machine. A step is one channel operation, one
 mutex-held section or one loop-local decision; steps of different goroutines
 interleave freely.
 */
module PacketScheduler {
  import opened NetTypes

  const CAPACITY := 128

  /** `udpPrepareKey`: the host if there is one, the destination IP otherwise. */
  datatype Key = Key(host: string, ip: Addr, port: nat)

  function PacketKey(host: string, ip: Addr, port: nat): Key {
    if host != "" then Key(host, NoAddr, port) else Key("", ip, port)
  }

  /** Packets share a key, and so a preparation, exactly if they go to the same port of the same host,
      or of the same address where neither names a host. */
  lemma KeysShared(host: string, ip: Addr, port: nat, host': string, ip': Addr, port': nat)
    ensures PacketKey(host, ip, port) == PacketKey(host', ip', port') <==>
      port == port' && host == host' && (host == "" ==> ip == ip')
  {
  }

  /** An accepted packet: its identity, its key and its position in the channel's order. */
  datatype Item = Item(id: nat, key: Key, no: nat)

  /** Where an accepted packet is. `Group` is the queue of its key, pending or being flushed. */
  datatype Place = Holding | InChannel | InLoop | InClose | Group(key: Key) | Gone

  /** Control point of the event loop. */
  datatype Pc =
    | NotStarted
    | Select
    | Got(item: Item)
    | Checked(item: Item)
    | Starting
    | Flush(key: Key, items: seq<Item>, ok: bool)
    | Exit
    | Drain
    | DrainHand(item: Item)
    | Stopped

  datatype State = State(
    cancelled: bool,
    closing: bool,
    holding: map<nat, Key>,
    slots: int,
    ch: seq<Item>,
    closeHand: Option<Item>,
    pc: Pc,
    pending: map<Key, seq<Item>>,
    waiting: seq<Key>,
    inflight: set<Key>,
    active: int,
    workers: nat,
    prepared: set<Key>,
    // history
    loc: map<nat, Place>,
    nextNo: nat,
    written: seq<Item>,
    dropped: seq<nat>,
    rejected: set<nat>)

  function Init(workers: nat): State {
    State(false, false, map[], 0, [], None, NotStarted, map[], [], {}, 0, workers, {}, map[], 0, [], [], {})
  }

  datatype Step =
    | SendReject(id: nat)
    | SendTake(id: nat, key: Key)
    | SendPut(id: nat)
    | SendFull(id: nat)
    | SendLate(id: nat)
    | CloseBegin
    | CloseTake
    | CloseDrop
    | CloseEnd
    | AddMapping(key: Key)
    | Begin
    | SeeDone
    | TakeReady(key: Key, ok: bool)
    | FlushOne
    | FlushEnd
    | TakePacket
    | CheckPass
    | CheckFail
    | Join
    | WriteNow
    | NewGroup
    | StartOne
    | StartEnd
    | ExitDrop(key: Key)
    | ExitEnd
    | DrainTake
    | DrainDrop
    | DrainEnd

  predicate Fresh(s: State, id: nat) {
    id !in s.loc && id !in s.rejected
  }

  predicate Enabled(s: State, step: Step) {
    match step
    case SendReject(id) => !s.closing && Fresh(s, id) && (s.cancelled || s.slots >= CAPACITY)
    case SendTake(id, _) => !s.closing && Fresh(s, id) && !s.cancelled && s.slots < CAPACITY
    case SendPut(id) => id in s.holding && |s.ch| < CAPACITY
    case SendFull(id) => id in s.holding && |s.ch| >= CAPACITY
    case SendLate(id) => id in s.holding && s.cancelled
    case CloseBegin => !s.closing && s.holding == map[]
    case CloseTake => s.closing && s.closeHand.None? && s.ch != []
    case CloseDrop => s.closeHand.Some?
    case CloseEnd => s.closing && s.closeHand.None? && s.ch == []
    case AddMapping(_) => true
    case Begin => s.pc.NotStarted?
    case SeeDone => s.pc.Select? && s.cancelled
    case TakeReady(key, _) => s.pc.Select? && key in s.inflight && key in s.pending
    case FlushOne => s.pc.Flush? && s.pc.items != []
    case FlushEnd => s.pc.Flush? && s.pc.items == []
    case TakePacket => s.pc.Select? && s.ch != []
    case CheckPass => s.pc.Got? && !s.cancelled
    case CheckFail => s.pc.Got? && s.cancelled
    case Join => s.pc.Checked? && s.pc.item.key in s.pending
    case WriteNow => s.pc.Checked? && s.pc.item.key !in s.pending && s.pc.item.key in s.prepared
    case NewGroup => s.pc.Checked? && s.pc.item.key !in s.pending && s.pc.item.key !in s.prepared
    case StartOne => s.pc.Starting? && !s.cancelled && s.active < s.workers && s.waiting != []
    case StartEnd => s.pc.Starting? && (s.cancelled || s.active >= s.workers || s.waiting == [])
    case ExitDrop(key) => s.pc.Exit? && key in s.pending && s.pending[key] != []
    case ExitEnd => s.pc.Exit? && s.pending == map[]
    case DrainTake => s.pc.Drain? && s.ch != []
    case DrainDrop => s.pc.DrainHand?
    case DrainEnd => s.pc.Drain? && s.ch == []
  }

  /** `queuedUDPPacket.Drop`: the packet is released and its slot given back. */
  function Drop(s: State, id: nat): State {
    s.(slots := s.slots - 1, loc := s.loc[id := Gone], dropped := s.dropped + [id])
  }

  /** Writing a packet to the socket drops it afterwards. */
  function WriteOut(s: State, item: Item): State {
    Drop(s, item.id).(written := s.written + [item])
  }

  function Next(s: State, step: Step): State
    requires Enabled(s, step)
  {
    match step
    case SendReject(id) => s.(rejected := s.rejected + {id})
    case SendTake(id, key) => s.(slots := s.slots + 1, holding := s.holding[id := key], loc := s.loc[id := Holding])
    case SendPut(id) =>
      s.(ch := s.ch + [Item(id, s.holding[id], s.nextNo)], nextNo := s.nextNo + 1,
         holding := s.holding - {id}, loc := s.loc[id := InChannel])
    case SendFull(id) => Drop(s, id).(holding := s.holding - {id})
    case SendLate(id) => Drop(s, id).(holding := s.holding - {id})
    case CloseBegin => s.(closing := true, cancelled := true)
    case CloseTake => s.(closeHand := Some(s.ch[0]), ch := s.ch[1..], loc := s.loc[s.ch[0].id := InClose])
    case CloseDrop => Drop(s, s.closeHand.value.id).(closeHand := None)
    case CloseEnd => s.(closing := false)
    case AddMapping(key) => s.(prepared := s.prepared + {key})
    case Begin => s.(pc := Select)
    case SeeDone => s.(pc := Exit)
    case TakeReady(key, ok) =>
      s.(active := s.active - 1, inflight := s.inflight - {key}, pending := s.pending - {key},
         prepared := if ok then s.prepared + {key} else s.prepared,
         pc := Flush(key, s.pending[key], ok))
    case FlushOne =>
      var u := s.(pc := s.pc.(items := s.pc.items[1..]));
      if s.pc.ok && !s.cancelled then WriteOut(u, s.pc.items[0]) else Drop(u, s.pc.items[0].id)
    case FlushEnd => s.(pc := Starting)
    case TakePacket => s.(pc := Got(s.ch[0]), ch := s.ch[1..], loc := s.loc[s.ch[0].id := InLoop])
    case CheckPass => s.(pc := Checked(s.pc.item))
    case CheckFail => Drop(s, s.pc.item.id).(pc := Exit)
    case Join =>
      var item := s.pc.item;
      s.(pc := Select, pending := s.pending[item.key := s.pending[item.key] + [item]],
         loc := s.loc[item.id := Group(item.key)])
    case WriteNow => WriteOut(s, s.pc.item).(pc := Select)
    case NewGroup =>
      var item := s.pc.item;
      s.(pc := Starting, pending := s.pending[item.key := [item]], waiting := s.waiting + [item.key],
         loc := s.loc[item.id := Group(item.key)])
    case StartOne => s.(active := s.active + 1, inflight := s.inflight + {s.waiting[0]}, waiting := s.waiting[1..])
    case StartEnd => s.(pc := Select)
    case ExitDrop(key) =>
      var group := s.pending[key];
      Drop(s, group[0].id).(pending := if |group| == 1 then s.pending - {key} else s.pending[key := group[1..]])
    case ExitEnd => s.(pc := Drain)
    case DrainTake => s.(pc := DrainHand(s.ch[0]), ch := s.ch[1..], loc := s.loc[s.ch[0].id := InLoop])
    case DrainDrop => Drop(s, s.pc.item.id).(pc := Drain)
    case DrainEnd => s.(pc := Stopped)
  }

  // ---------------------------------------------------------------- custody of packets and slots

  function AtPlace(loc: map<nat, Place>, place: Place): set<nat> {
    set id | id in loc && loc[id] == place
  }

  function Live(loc: map<nat, Place>): set<nat> {
    set id | id in loc && loc[id] != Gone
  }

  function Ids(items: seq<Item>): set<nat> {
    set i | 0 <= i < |items| :: items[i].id
  }

  predicate Distinct(items: seq<Item>) {
    forall i, j :: 0 <= i < j < |items| ==> items[i].id != items[j].id
  }

  /** The queue of a key, whether it still waits for its target or is being flushed. */
  function GroupOf(s: State, key: Key): seq<Item> {
    if key in s.pending then s.pending[key]
    else if s.pc.Flush? && s.pc.key == key then s.pc.items
    else []
  }

  function HandIds(hand: Option<Item>): set<nat> {
    if hand.Some? then {hand.value.id} else {}
  }

  function Hand(pc: Pc): Option<Item> {
    match pc
    case Got(item) => Some(item)
    case Checked(item) => Some(item)
    case DrainHand(item) => Some(item)
    case _ => None
  }

  /** The packets really found at a place. */
  function Here(s: State, place: Place): set<nat> {
    match place
    case Holding => s.holding.Keys
    case InChannel => Ids(s.ch)
    case InLoop => HandIds(Hand(s.pc))
    case InClose => HandIds(s.closeHand)
    case Group(key) => Ids(GroupOf(s, key))
    case Gone => set id | id in s.dropped
  }

  ghost predicate Orderly(s: State) {
    && Distinct(s.ch)
    && (forall k :: Distinct(GroupOf(s, k)))
    && (forall k, i :: 0 <= i < |GroupOf(s, k)| ==> GroupOf(s, k)[i].key == k)
    && (s.pc.Flush? ==> s.pc.key !in s.pending)
  }

  /** Every accepted packet is in exactly one place, once; the slots held are the packets
      not yet dropped; no packet is dropped twice. */
  ghost predicate Custody(s: State) {
    && (forall place :: AtPlace(s.loc, place) == Here(s, place))
    && (forall i, j :: 0 <= i < j < |s.dropped| ==> s.dropped[i] != s.dropped[j])
    && (forall id :: id in s.rejected ==> id !in s.loc)
    && s.slots == |Live(s.loc)| && s.slots <= CAPACITY
    && Orderly(s)
  }

  lemma MovePlaces(loc: map<nat, Place>, id: nat, to: Place)
    ensures forall place :: AtPlace(loc[id := to], place) ==
              if place == to then AtPlace(loc, place) + {id} else AtPlace(loc, place) - {id}
    ensures Live(loc[id := to]) == if to == Gone then Live(loc) - {id} else Live(loc) + {id}
  {
  }

  lemma IdsSnoc(items: seq<Item>, item: Item)
    ensures Ids(items + [item]) == Ids(items) + {item.id}
    ensures Distinct(items) && item.id !in Ids(items) ==> Distinct(items + [item])
  {
    var more := items + [item];
    assert forall i :: 0 <= i < |items| ==> more[i] == items[i];
    assert more[|items|] == item;
    forall id | id in Ids(items) + {item.id} ensures id in Ids(more) {
      if id == item.id {
        assert more[|items|].id == id;
      } else {
        var i :| 0 <= i < |items| && items[i].id == id;
        assert more[i].id == id;
      }
    }
  }

  lemma IdsTail(items: seq<Item>)
    requires items != [] && Distinct(items)
    ensures Ids(items[1..]) == Ids(items) - {items[0].id} && items[0].id in Ids(items)
    ensures Distinct(items[1..])
  {
    var rest := items[1..];
    assert forall i :: 0 <= i < |rest| ==> rest[i] == items[i + 1];
    forall id | id in Ids(items) - {items[0].id} ensures id in Ids(rest) {
      var i :| 0 <= i < |items| && items[i].id == id;
      assert rest[i - 1].id == id;
    }
  }

  lemma {:induction false} IdsCount(items: seq<Item>)
    requires Distinct(items)
    ensures |Ids(items)| == |items|
  {
    if items != [] {
      IdsTail(items);
      IdsCount(items[1..]);
      assert Ids(items) == Ids(items[1..]) + {items[0].id};
    }
  }

  /** A packet that keeps its slot moves from one place to another. */
  lemma CustodyMove(s: State, u: State, id: nat, from: Place, to: Place)
    requires Custody(s) && Orderly(u) && from != Gone && to != Gone && from != to && id in Here(s, from)
    requires u.loc == s.loc[id := to] && u.slots == s.slots && u.dropped == s.dropped && u.rejected == s.rejected
    requires Here(u, from) == Here(s, from) - {id} && Here(u, to) == Here(s, to) + {id}
    requires forall place :: place != from && place != to ==> Here(u, place) == Here(s, place)
    ensures Custody(u)
  {
    MovePlaces(s.loc, id, to);
    assert id in AtPlace(s.loc, from);
    forall place ensures AtPlace(u.loc, place) == Here(u, place) {
      assert AtPlace(s.loc, place) == Here(s, place);
      assert place != from ==> id !in AtPlace(s.loc, place);
    }
    assert Live(u.loc) == Live(s.loc);
  }

  /** A dropped packet gives back exactly the slot it held. */
  lemma CustodyDrop(s: State, u: State, id: nat, from: Place)
    requires Custody(s) && Orderly(u) && from != Gone && id in Here(s, from)
    requires u.loc == s.loc[id := Gone] && u.slots == s.slots - 1 && u.dropped == s.dropped + [id]
    requires u.rejected == s.rejected
    requires Here(u, from) == Here(s, from) - {id}
    requires forall place :: place != from && place != Gone ==> Here(u, place) == Here(s, place)
    ensures Custody(u)
  {
    assert AtPlace(s.loc, from) == Here(s, from) && AtPlace(s.loc, Gone) == Here(s, Gone);
    assert id in AtPlace(s.loc, from) && id in Live(s.loc);
    assert id in s.dropped ==> id in Here(s, Gone);
    DropPlaces(s, u, id, from);
    DroppedApart(s.dropped, id);
    MovePlaces(s.loc, id, Gone);
  }

  lemma DropPlaces(s: State, u: State, id: nat, from: Place)
    requires Custody(s) && from != Gone && id in Here(s, from)
    requires u.loc == s.loc[id := Gone] && u.dropped == s.dropped + [id]
    requires Here(u, from) == Here(s, from) - {id}
    requires forall place :: place != from && place != Gone ==> Here(u, place) == Here(s, place)
    ensures forall place :: AtPlace(u.loc, place) == Here(u, place)
  {
    MovePlaces(s.loc, id, Gone);
    assert id in AtPlace(s.loc, from);
    assert Here(u, Gone) == Here(s, Gone) + {id};
    forall place ensures AtPlace(u.loc, place) == Here(u, place) {
      assert AtPlace(s.loc, place) == Here(s, place);
      assert place != from ==> id !in AtPlace(s.loc, place);
    }
  }

  lemma DroppedApart(dropped: seq<nat>, id: nat)
    requires id !in dropped && forall i, j :: 0 <= i < j < |dropped| ==> dropped[i] != dropped[j]
    ensures var more := dropped + [id]; forall i, j :: 0 <= i < j < |more| ==> more[i] != more[j]
  {
  }

  /** A new packet takes a slot. */
  lemma CustodyAccept(s: State, u: State, id: nat)
    requires Custody(s) && Orderly(u) && Fresh(s, id) && s.slots < CAPACITY
    requires u.loc == s.loc[id := Holding] && u.slots == s.slots + 1
    requires u.dropped == s.dropped && u.rejected == s.rejected
    requires Here(u, Holding) == Here(s, Holding) + {id}
    requires forall place :: place != Holding ==> Here(u, place) == Here(s, place)
    ensures Custody(u)
  {
    MovePlaces(s.loc, id, Holding);
    assert id !in Live(s.loc);
    assert forall place :: id !in AtPlace(s.loc, place);
  }

  lemma KeptSendTake(s: State, id: nat, key: Key)
    requires Custody(s) && Enabled(s, SendTake(id, key))
    ensures Custody(Next(s, SendTake(id, key)))
  {
    var u := Next(s, SendTake(id, key));
    assert forall k :: GroupOf(u, k) == GroupOf(s, k);
    CustodyAccept(s, u, id);
  }

  lemma KeptSendPut(s: State, id: nat)
    requires Custody(s) && Enabled(s, SendPut(id))
    ensures Custody(Next(s, SendPut(id)))
  {
    var u := Next(s, SendPut(id));
    var item := Item(id, s.holding[id], s.nextNo);
    assert id in AtPlace(s.loc, Holding);
    assert id !in AtPlace(s.loc, InChannel);
    IdsSnoc(s.ch, item);
    assert forall k :: GroupOf(u, k) == GroupOf(s, k);
    CustodyMove(s, u, id, Holding, InChannel);
  }

  /** The loop takes the oldest packet of the channel in its hand. */
  lemma CustodyTake(s: State, u: State)
    requires Custody(s) && s.ch != [] && Hand(s.pc) == None && !s.pc.Flush?
    requires Hand(u.pc) == Some(s.ch[0]) && u == s.(pc := u.pc, ch := s.ch[1..], loc := s.loc[s.ch[0].id := InLoop])
    ensures Custody(u)
  {
    IdsTail(s.ch);
    assert forall k :: GroupOf(u, k) == GroupOf(s, k);
    CustodyMove(s, u, s.ch[0].id, InChannel, InLoop);
  }

  lemma KeptTake(s: State, step: Step)
    requires Custody(s) && Enabled(s, step) && (step.TakePacket? || step.DrainTake?)
    ensures Custody(Next(s, step))
  {
    CustodyTake(s, Next(s, step));
  }

  lemma KeptCloseTake(s: State, step: Step)
    requires Custody(s) && Enabled(s, step) && step.CloseTake?
    ensures Custody(Next(s, step))
  {
    var u := Next(s, step);
    IdsTail(s.ch);
    assert forall k :: GroupOf(u, k) == GroupOf(s, k);
    CustodyMove(s, u, s.ch[0].id, InChannel, InClose);
  }

  lemma KeptCloseDrop(s: State)
    requires Custody(s) && Enabled(s, CloseDrop)
    ensures Custody(Next(s, CloseDrop))
  {
    var u := Next(s, CloseDrop);
    assert forall k :: GroupOf(u, k) == GroupOf(s, k);
    CustodyDrop(s, u, s.closeHand.value.id, InClose);
  }

  /** The packet in the loop's hand is dropped. */
  lemma CustodyDropHand(s: State, u: State, item: Item)
    requires Custody(s) && Hand(s.pc) == Some(item) && Hand(u.pc) == None && !u.pc.Flush?
    requires u == Drop(s, item.id).(pc := u.pc, written := u.written)
    ensures Custody(u)
  {
    assert forall k :: GroupOf(u, k) == GroupOf(s, k);
    CustodyDrop(s, u, item.id, InLoop);
  }

  lemma KeptDropHand(s: State, step: Step)
    requires Custody(s) && Enabled(s, step) && (step.CheckFail? || step.WriteNow? || step.DrainDrop?)
    ensures Custody(Next(s, step))
  {
    CustodyDropHand(s, Next(s, step), s.pc.item);
  }

  lemma KeptDropHeld(s: State, step: Step)
    requires Custody(s) && Enabled(s, step) && (step.SendFull? || step.SendLate?)
    ensures Custody(Next(s, step))
  {
    var u := Next(s, step);
    assert forall k :: GroupOf(u, k) == GroupOf(s, k);
    CustodyDrop(s, u, step.id, Holding);
  }

  lemma HereGrouped(s: State, u: State, item: Item)
    requires Hand(s.pc) == Some(item) && Hand(u.pc) == None && u.dropped == s.dropped
    requires GroupOf(u, item.key) == GroupOf(s, item.key) + [item]
    requires forall k :: k != item.key ==> GroupOf(u, k) == GroupOf(s, k)
    requires u.ch == s.ch && u.closeHand == s.closeHand && u.holding == s.holding
    ensures Here(u, Group(item.key)) == Here(s, Group(item.key)) + {item.id}
    ensures Here(u, InLoop) == Here(s, InLoop) - {item.id} && item.id in Here(s, InLoop)
    ensures forall place :: place != InLoop && place != Group(item.key) ==> Here(u, place) == Here(s, place)
  {
    IdsSnoc(GroupOf(s, item.key), item);
  }

  lemma OrderlyGrouped(s: State, u: State, item: Item)
    requires Orderly(s) && item.id !in Ids(GroupOf(s, item.key)) && !u.pc.Flush? && u.ch == s.ch
    requires GroupOf(u, item.key) == GroupOf(s, item.key) + [item]
    requires forall k :: k != item.key ==> GroupOf(u, k) == GroupOf(s, k)
    ensures Orderly(u)
  {
    IdsSnoc(GroupOf(s, item.key), item);
    forall k ensures Distinct(GroupOf(u, k)) && forall i :: 0 <= i < |GroupOf(u, k)| ==> GroupOf(u, k)[i].key == k {
      assert Distinct(GroupOf(s, k));
    }
  }

  /** The packet in the loop's hand joins the queue of its key. */
  lemma CustodyGroup(s: State, u: State, item: Item)
    requires Custody(s) && Hand(s.pc) == Some(item) && Hand(u.pc) == None && !u.pc.Flush?
    requires u.loc == s.loc[item.id := Group(item.key)] && u.slots == s.slots
    requires u.dropped == s.dropped && u.rejected == s.rejected
    requires GroupOf(u, item.key) == GroupOf(s, item.key) + [item]
    requires forall k :: k != item.key ==> GroupOf(u, k) == GroupOf(s, k)
    requires u.ch == s.ch && u.closeHand == s.closeHand && u.holding == s.holding
    ensures Custody(u)
  {
    assert AtPlace(s.loc, InLoop) == Here(s, InLoop) && AtPlace(s.loc, Group(item.key)) == Here(s, Group(item.key));
    assert item.id in AtPlace(s.loc, InLoop);
    HereGrouped(s, u, item);
    OrderlyGrouped(s, u, item);
    CustodyMove(s, u, item.id, InLoop, Group(item.key));
  }

  lemma KeptJoin(s: State)
    requires Custody(s) && Enabled(s, Join)
    ensures Custody(Next(s, Join))
  {
    CustodyGroup(s, Next(s, Join), s.pc.item);
  }

  lemma KeptNewGroup(s: State)
    requires Custody(s) && Enabled(s, NewGroup)
    ensures Custody(Next(s, NewGroup))
  {
    CustodyGroup(s, Next(s, NewGroup), s.pc.item);
  }

  /** The head of a group is dropped, the group loses it and nothing else changes. */
  lemma CustodyUngroup(s: State, u: State, key: Key)
    requires Custody(s) && GroupOf(s, key) != [] && (u.pc.Flush? ==> u.pc.key !in u.pending)
    requires var id := GroupOf(s, key)[0].id;
      u.loc == s.loc[id := Gone] && u.slots == s.slots - 1 && u.dropped == s.dropped + [id] && u.rejected == s.rejected
    requires GroupOf(u, key) == GroupOf(s, key)[1..]
    requires forall k :: k != key ==> GroupOf(u, k) == GroupOf(s, k)
    requires u.ch == s.ch && u.closeHand == s.closeHand && u.holding == s.holding && Hand(u.pc) == Hand(s.pc)
    ensures Custody(u)
  {
    var group := GroupOf(s, key);
    IdsTail(group);
    assert forall i :: 0 <= i < |group[1..]| ==> group[1..][i] == group[i + 1];
    CustodyDrop(s, u, group[0].id, Group(key));
  }

  /** Steps that move no packet. */
  lemma CustodySame(s: State, u: State)
    requires Custody(s) && (u.pc.Flush? ==> u.pc.key !in u.pending)
    requires u.loc == s.loc && u.slots == s.slots && u.dropped == s.dropped
    requires forall id :: id in u.rejected ==> id !in u.loc
    requires forall k :: GroupOf(u, k) == GroupOf(s, k)
    requires u.ch == s.ch && u.closeHand == s.closeHand && u.holding == s.holding && Hand(u.pc) == Hand(s.pc)
    ensures Custody(u)
  {
    assert forall place :: Here(u, place) == Here(s, place);
  }

  lemma KeptFlushOne(s: State)
    requires Custody(s) && Enabled(s, FlushOne)
    ensures Custody(Next(s, FlushOne))
  {
    var u := Next(s, FlushOne);
    var key := s.pc.key;
    assert u.pc == Flush(key, s.pc.items[1..], s.pc.ok) && u.pending == s.pending && key !in s.pending;
    assert GroupOf(s, key) == s.pc.items && GroupOf(u, key) == s.pc.items[1..];
    assert forall k :: k != key ==> GroupOf(u, k) == GroupOf(s, k);
    CustodyUngroup(s, u, key);
  }

  lemma KeptExitDrop(s: State, key: Key)
    requires Custody(s) && Enabled(s, ExitDrop(key))
    ensures Custody(Next(s, ExitDrop(key)))
  {
    CustodyUngroup(s, Next(s, ExitDrop(key)), key);
  }

  lemma KeptReady(s: State, key: Key, ok: bool)
    requires Custody(s) && Enabled(s, TakeReady(key, ok))
    ensures Custody(Next(s, TakeReady(key, ok)))
  {
    CustodySame(s, Next(s, TakeReady(key, ok)));
  }

  predicate MovesNothing(step: Step) {
    || step.SendReject? || step.CloseBegin? || step.CloseEnd? || step.AddMapping? || step.Begin? || step.SeeDone?
    || step.FlushEnd? || step.CheckPass? || step.StartOne? || step.StartEnd? || step.ExitEnd? || step.DrainEnd?
  }

  lemma KeptByCaller(s: State, step: Step)
    requires Custody(s) && Enabled(s, step)
    requires step.SendReject? || step.CloseBegin? || step.CloseEnd? || step.AddMapping?
    ensures Custody(Next(s, step))
  {
    CustodySame(s, Next(s, step));
  }

  lemma KeptByLoop(s: State, step: Step)
    requires Custody(s) && Enabled(s, step) && MovesNothing(step)
    requires !(step.SendReject? || step.CloseBegin? || step.CloseEnd? || step.AddMapping?)
    ensures Custody(Next(s, step))
  {
    CustodySame(s, Next(s, step));
  }

  lemma CustodyKept(s: State, step: Step)
    requires Custody(s) && Enabled(s, step)
    ensures Custody(Next(s, step))
  {
    match step
    case SendTake(id, key) => KeptSendTake(s, id, key);
    case SendPut(id) => KeptSendPut(s, id);
    case SendFull(_) => KeptDropHeld(s, step);
    case SendLate(_) => KeptDropHeld(s, step);
    case CloseTake => KeptCloseTake(s, step);
    case CloseDrop => KeptCloseDrop(s);
    case TakeReady(key, ok) => KeptReady(s, key, ok);
    case FlushOne => KeptFlushOne(s);
    case TakePacket => KeptTake(s, step);
    case CheckFail => KeptDropHand(s, step);
    case Join => KeptJoin(s);
    case WriteNow => KeptDropHand(s, step);
    case NewGroup => KeptNewGroup(s);
    case ExitDrop(key) => KeptExitDrop(s, key);
    case DrainTake => KeptTake(s, step);
    case DrainDrop => KeptDropHand(s, step);
    case SendReject(_) => KeptByCaller(s, step);
    case CloseBegin => KeptByCaller(s, step);
    case CloseEnd => KeptByCaller(s, step);
    case AddMapping(_) => KeptByCaller(s, step);
    case _ => KeptByLoop(s, step);
  }
}
