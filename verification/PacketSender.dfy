/**
 The packet sender object: the fields and loop variables that `Send`, `Close` and the
 turns of the event loop update, each method proved to be an execution of the state
 machine in `PacketScheduler`, so that everything proved there holds of the object.
 */
module PacketSender {
  import opened NetTypes
  import opened PacketScheduler
  import opened PacketSchedulerSafety

  /** From its initial state the machine comes to `s` by the steps, having accepted the packets
      named; packets are named below `issued`. */
  ghost predicate Leads(workers: nat, steps: seq<Step>, s: State, accepted: set<nat>, issued: nat)
    decreases |steps|, 0
  {
    if steps == [] then s == Init(workers) && accepted == {}
    else LeadsOn(workers, steps[..|steps| - 1], steps[|steps| - 1], s, accepted, issued)
  }

  ghost predicate LeadsOn(workers: nat, steps: seq<Step>, step: Step, s: State, accepted: set<nat>, issued: nat)
    decreases |steps|, 1
  {
    exists before, named ::
      Leads(workers, steps, before, named, issued) && Takes(before, named, step, s, accepted, issued)
  }

  /** One step, and the name it may give. */
  ghost predicate Takes(before: State, named: set<nat>, step: Step, s: State, accepted: set<nat>, issued: nat) {
    && Enabled(before, step) && s == Next(before, step)
    && accepted == named + AcceptedBy(step) && NamesBelow(step, issued)
  }

  predicate NamesBelow(step: Step, issued: nat) {
    step.SendTake? || step.SendReject? ==> step.id < issued
  }

  function AcceptedBy(step: Step): set<nat> { if step.SendTake? then {step.id} else {} }

  function RefusedBy(step: Step): set<nat> { if step.SendReject? then {step.id} else {} }

  lemma LeadsMore(workers: nat, steps: seq<Step>, s: State, accepted: set<nat>, step: Step, issued: nat)
    requires Leads(workers, steps, s, accepted, issued) && Enabled(s, step) && NamesBelow(step, issued)
    ensures Leads(workers, steps + [step], Next(s, step), accepted + AcceptedBy(step), issued)
  {
    assert (steps + [step])[..|steps|] == steps;
    assert Takes(s, accepted, step, Next(s, step), accepted + AcceptedBy(step), issued);
    assert LeadsOn(workers, steps, step, Next(s, step), accepted + AcceptedBy(step), issued);
  }

  /** Everything proved of the machine's runs holds of a state led to, and its packets are those accepted. */
  lemma {:induction false} LeadsToSafe(workers: nat, steps: seq<Step>, s: State, accepted: set<nat>, issued: nat)
    requires Leads(workers, steps, s, accepted, issued)
    ensures Safe(s) && NamesAre(s, accepted, issued)
    decreases |steps|
  {
    if steps == [] {
      InitSafe(workers);
    } else {
      var front, last := steps[..|steps| - 1], steps[|steps| - 1];
      var before, named :|
        Leads(workers, front, before, named, issued) && Takes(before, named, last, s, accepted, issued);
      LeadsToSafe(workers, front, before, named, issued);
      SafeKept(before, last);
      NamesKept(before, named, last, s, accepted, issued);
    }
  }

  lemma NamesKept(before: State, named: set<nat>, step: Step, s: State, accepted: set<nat>, issued: nat)
    requires Safe(before) && NamesAre(before, named, issued) && Takes(before, named, step, s, accepted, issued)
    ensures NamesAre(s, accepted, issued)
  {
    if Mover(before, step).Some? {
      MoverHoldsSlot(before, step);
    }
    StepNames(before, step);
  }

  ghost predicate NamesAre(s: State, accepted: set<nat>, issued: nat) {
    s.loc.Keys == accepted && forall id :: id in s.loc || id in s.rejected ==> id < issued
  }

  lemma {:induction false} LeadsIssued(
    workers: nat, steps: seq<Step>, s: State, accepted: set<nat>, issued: nat, more: nat)
    requires Leads(workers, steps, s, accepted, issued) && issued <= more
    ensures Leads(workers, steps, s, accepted, more)
    decreases |steps|
  {
    if steps != [] {
      var front, last := steps[..|steps| - 1], steps[|steps| - 1];
      var before, named :|
        Leads(workers, front, before, named, issued) && Takes(before, named, last, s, accepted, issued);
      LeadsIssued(workers, front, before, named, issued, more);
      assert LeadsOn(workers, front, last, s, accepted, more);
    }
  }

  // ---------------------------------------------------------------- names and slots of packets

  /** The packet a step moves, and where it was. */
  function Mover(s: State, step: Step): Option<(nat, Place)>
    requires Enabled(s, step)
  {
    match step
    case SendPut(id) => Some((id, Holding))
    case SendFull(id) => Some((id, Holding))
    case SendLate(id) => Some((id, Holding))
    case CloseTake => Some((s.ch[0].id, InChannel))
    case CloseDrop => Some((s.closeHand.value.id, InClose))
    case FlushOne => Some((s.pc.items[0].id, Group(s.pc.key)))
    case TakePacket => Some((s.ch[0].id, InChannel))
    case CheckFail => Some((s.pc.item.id, InLoop))
    case Join => Some((s.pc.item.id, InLoop))
    case WriteNow => Some((s.pc.item.id, InLoop))
    case NewGroup => Some((s.pc.item.id, InLoop))
    case ExitDrop(key) => Some((s.pending[key][0].id, Group(key)))
    case DrainTake => Some((s.ch[0].id, InChannel))
    case DrainDrop => Some((s.pc.item.id, InLoop))
    case _ => None
  }

  /** The packet moved has a place, and so a slot. */
  lemma MoverHoldsSlot(s: State, step: Step)
    requires Safe(s) && Enabled(s, step) && Mover(s, step).Some?
    ensures Mover(s, step).value.0 in s.loc && s.slots > 0
  {
    MoverIsHere(s, step);
    PlacedHoldsSlot(s, Mover(s, step).value.0, Mover(s, step).value.1);
  }

  lemma MoverIsHere(s: State, step: Step)
    requires Orderly(s) && Enabled(s, step) && Mover(s, step).Some?
    ensures Mover(s, step).value.1 != Gone && Mover(s, step).value.0 in Here(s, Mover(s, step).value.1)
  {
  }

  lemma PlacedHoldsSlot(s: State, id: nat, place: Place)
    requires Safe(s) && id in Here(s, place) && place != Gone
    ensures id in s.loc && s.slots > 0
  {
    assert AtPlace(s.loc, place) == Here(s, place);
    assert id in AtPlace(s.loc, place) && id in Live(s.loc);
  }

  /** Where a step that moves a packet takes it. */
  function Goal(s: State, step: Step): Place {
    match step
    case SendPut(_) => InChannel
    case CloseTake => InClose
    case TakePacket | DrainTake => InLoop
    case Join | NewGroup => if s.pc.Checked? then Group(s.pc.item.key) else Gone
    case _ => Gone
  }

  predicate Moved(s: State, id: nat, place: Place, u: State) {
    u.loc == s.loc[id := place] && u.rejected == s.rejected
  }

  lemma CallerMoves(s: State, step: Step)
    requires Enabled(s, step) && Mover(s, step).Some? && CallerStep(step)
    ensures Moved(s, Mover(s, step).value.0, Goal(s, step), Next(s, step))
  {
  }

  lemma LoopMoves(s: State, step: Step)
    requires Enabled(s, step) && Mover(s, step).Some? && !CallerStep(step) && !step.FlushOne? && !step.ExitDrop?
    ensures Moved(s, Mover(s, step).value.0, Goal(s, step), Next(s, step))
  {
  }

  lemma GroupMoves(s: State, step: Step)
    requires Enabled(s, step) && (step.FlushOne? || step.ExitDrop?)
    ensures Moved(s, Mover(s, step).value.0, Goal(s, step), Next(s, step))
  {
  }

  lemma MovesKeepNames(s: State, step: Step)
    requires Enabled(s, step) && Mover(s, step).Some? && Mover(s, step).value.0 in s.loc
    ensures Next(s, step).loc.Keys == s.loc.Keys && Next(s, step).rejected == s.rejected
  {
    if CallerStep(step) {
      CallerMoves(s, step);
    } else if step.FlushOne? || step.ExitDrop? {
      GroupMoves(s, step);
    } else {
      LoopMoves(s, step);
    }
    MovedKeys(s.loc, Mover(s, step).value.0, Goal(s, step));
  }

  lemma MovedKeys(loc: map<nat, Place>, id: nat, place: Place)
    requires id in loc
    ensures loc[id := place].Keys == loc.Keys
  {
  }

  predicate Names(s: State, step: Step, u: State) {
    u.loc.Keys == s.loc.Keys + AcceptedBy(step) && u.rejected == s.rejected + RefusedBy(step)
  }

  lemma CallerNames(s: State, step: Step)
    requires Enabled(s, step) && Mover(s, step).None? && CallerStep(step)
    ensures Names(s, step, Next(s, step))
  {
    if step.SendTake? {
      assert s.loc[step.id := Holding].Keys == s.loc.Keys + {step.id};
    }
  }

  lemma LoopNames(s: State, step: Step)
    requires Enabled(s, step) && Mover(s, step).None? && !CallerStep(step)
    ensures Names(s, step, Next(s, step))
  {
    assert Next(s, step).loc == s.loc && Next(s, step).rejected == s.rejected;
  }

  lemma StepNames(s: State, step: Step)
    requires Enabled(s, step) && (Mover(s, step).Some? ==> Mover(s, step).value.0 in s.loc)
    ensures Names(s, step, Next(s, step))
  {
    if Mover(s, step).Some? {
      MovesKeepNames(s, step);
    } else if CallerStep(step) {
      CallerNames(s, step);
    } else {
      LoopNames(s, step);
    }
  }

  // What the object needs of a state led to.

  lemma HoldsSlot(workers: nat, steps: seq<Step>, s: State, accepted: set<nat>, issued: nat, step: Step)
    requires Leads(workers, steps, s, accepted, issued) && Enabled(s, step) && Mover(s, step).Some?
    ensures s.slots > 0
  {
    LeadsToSafe(workers, steps, s, accepted, issued);
    MoverHoldsSlot(s, step);
  }

  lemma FindsRoom(workers: nat, steps: seq<Step>, s: State, accepted: set<nat>, issued: nat, id: nat)
    requires Leads(workers, steps, s, accepted, issued) && id in s.holding
    ensures |s.ch| < CAPACITY && !s.cancelled
  {
    LeadsToSafe(workers, steps, s, accepted, issued);
    RoomForHeld(s, id);
  }

  lemma HasGroup(workers: nat, steps: seq<Step>, s: State, accepted: set<nat>, issued: nat, key: Key)
    requires Leads(workers, steps, s, accepted, issued) && s.pc.Select? && key in s.inflight
    ensures key in s.pending && s.active > 0
  {
    LeadsToSafe(workers, steps, s, accepted, issued);
  }

  lemma NothingYet(workers: nat, steps: seq<Step>, s: State, accepted: set<nat>, issued: nat)
    requires Leads(workers, steps, s, accepted, issued) && s.pc.NotStarted?
    ensures s.pending == map[] && s.waiting == [] && s.inflight == {} && s.active == 0
  {
    LeadsToSafe(workers, steps, s, accepted, issued);
  }

  lemma GroupHasPackets(workers: nat, steps: seq<Step>, s: State, accepted: set<nat>, issued: nat, key: Key)
    requires Leads(workers, steps, s, accepted, issued) && key in s.pending
    ensures s.pending[key] != []
  {
    LeadsToSafe(workers, steps, s, accepted, issued);
  }

  lemma NameIsNew(workers: nat, steps: seq<Step>, s: State, accepted: set<nat>, issued: nat)
    requires Leads(workers, steps, s, accepted, issued)
    ensures Fresh(s, issued) && issued !in accepted && Leads(workers, steps, s, accepted, issued + 1)
  {
    LeadsToSafe(workers, steps, s, accepted, issued);
    LeadsIssued(workers, steps, s, accepted, issued, issued + 1);
  }

  /** A loop that has stopped after a `Close` left nothing behind. */
  lemma LeavesNothing(workers: nat, steps: seq<Step>, s: State, accepted: set<nat>, issued: nat)
    requires Leads(workers, steps, s, accepted, issued) && s.pc.Stopped? && s.cancelled && !s.closing
    ensures s.slots == 0 && ReleasedOnce(s.dropped, accepted)
    ensures SameKeyOrdered(s.written) && AllPrepared(s.written, s.prepared)
  {
    LeadsToSafe(workers, steps, s, accepted, issued);
    NothingKept(s);
  }

  predicate AllPrepared(written: seq<Item>, prepared: set<Key>) {
    forall i :: 0 <= i < |written| ==> written[i].key in prepared
  }

  ghost predicate ReleasedOnce(dropped: seq<nat>, accepted: set<nat>) {
    && (forall id :: id in dropped <==> id in accepted)
    && (forall i, j :: 0 <= i < j < |dropped| ==> dropped[i] != dropped[j])
  }

  // ---------------------------------------------------------------- what the methods say

  /** No caller is inside `Send` or `Close`. */
  predicate Idle(s: State) {
    !s.closing && s.holding == map[] && s.closeHand.None?
  }

  function IdSeq(items: seq<Item>): seq<nat> {
    seq(|items|, i requires 0 <= i < |items| => items[i].id)
  }

  lemma IdsMore(items: seq<Item>, n: nat)
    requires n < |items|
    ensures IdSeq(items[..n + 1]) == IdSeq(items[..n]) + [items[n].id] && items[n..][0] == items[n]
    ensures items[n..][1..] == items[n + 1..]
  {
  }

  /** The packet at the end of its key's group, which it may open. */
  function Grouped(pending: map<Key, seq<Item>>, p: Item): map<Key, seq<Item>> {
    pending[p.key := if p.key in pending then pending[p.key] + [p] else [p]]
  }

  predicate AllIn(items: seq<Item>, ids: seq<nat>) {
    forall i :: 0 <= i < |items| ==> items[i].id in ids
  }

  lemma AllInMore(ids: seq<nat>, items: seq<Item>)
    ensures AllIn(items, ids + IdSeq(items))
    ensures forall g :: AllIn(g, ids) ==> AllIn(g, ids + IdSeq(items))
  {
    var more := IdSeq(items);
    forall i | 0 <= i < |items| ensures items[i].id in ids + more {
      assert more[i] == items[i].id;
    }
  }

  /** The first packet of a key's group is gone from it, and the group with its last packet. */
  function Unpended(pending: map<Key, seq<Item>>, key: Key): map<Key, seq<Item>>
    requires key in pending && pending[key] != []
  {
    if |pending[key]| == 1 then pending - {key} else pending[key := pending[key][1..]]
  }

  /** What happens around the loop: packets arrive, the channel or a worker's result is chosen,
      a target is mapped, the sender is closed, the closed context is seen. */
  datatype Event = Arrival(key: Key) | Packet | Result(key: Key, ok: bool) | Mapped(key: Key) | Shut | Done

  /** The variables of the event loop, and the keys its workers are busy with. */
  datatype Loop = Loop(pending: map<Key, seq<Item>>, waiting: seq<Key>, working: set<Key>, active: nat)

  /** What the outside sees: packets queued so far, packets written, packets released. */
  datatype Log = Log(arrivals: nat, written: seq<Item>, dropped: seq<nat>)

  ghost predicate SameLoop(loop: Loop, s: State) {
    loop.pending == s.pending && loop.waiting == s.waiting && loop.working == s.inflight && loop.active == s.active
  }

  ghost predicate SameLog(log: Log, s: State) {
    log.arrivals == s.nextNo && log.written == s.written && log.dropped == s.dropped
  }

  predicate Written(before: Log, after: Log, packet: Item) {
    after == before.(written := before.written + [packet], dropped := before.dropped + [packet.id])
  }

  predicate FlushedOne(before: Log, after: Log, packet: Item, write: bool) {
    after == before.(written := if write then before.written + [packet] else before.written,
                     dropped := before.dropped + [packet.id])
  }

  /** A group left whole and in order, written or not. */
  predicate Flushed(before: Log, after: Log, group: seq<Item>, write: bool) {
    after == before.(written := if write then before.written + group else before.written,
                     dropped := before.dropped + IdSeq(group))
  }

  lemma FlushedMore(first: Log, before: Log, after: Log, group: seq<Item>, i: nat, write: bool)
    requires i < |group| && Flushed(first, before, group[..i], write) && FlushedOne(before, after, group[i], write)
    ensures Flushed(first, after, group[..i + 1], write)
  {
    IdsMore(group, i);
    assert group[..i + 1] == group[..i] + [group[i]];
  }

  /** The packet waits in its key's group; a new group's key waits for a worker, and keys may have
      been handed to workers. */
  ghost predicate Pends(before: Loop, after: Loop, packet: Item, started: seq<Key>) {
    && after.pending == Grouped(before.pending, packet)
    && (if packet.key in before.pending then after.waiting == before.waiting && started == []
        else started + after.waiting == before.waiting + [packet.key])
    && after.active == before.active + |started| && after.working == before.working + set k | k in started
  }

  /** The first of the waiting keys went to workers. */
  ghost predicate HandedOut(before: Loop, after: Loop, started: seq<Key>) {
    && started + after.waiting == before.waiting && after.active == before.active + |started|
    && after.working == before.working + set k | k in started
  }

  lemma HandedOneMore(first: Loop, before: Loop, after: Loop, started: seq<Key>, key: Key)
    requires HandedOut(first, before, started) && before.waiting != [] && key == before.waiting[0]
    requires after.waiting == before.waiting[1..] && after.active == before.active + 1
    requires after.working == before.working + {key}
    ensures HandedOut(first, after, started + [key])
  {
    assert started + [key] + after.waiting == started + before.waiting;
  }

  class Sender {
    const workers: nat
    // the sender's channels and its prepared targets
    var cancelled: bool
    var slots: nat
    var ch: seq<Item>
    var prepared: set<Key>
    // the event loop, the outside, and the packets offered so far
    var loop: Loop
    var log: Log
    var issued: nat
    // the machine's state, the packets accepted and the steps taken so far
    ghost var m: State
    ghost var accepted: set<nat>
    ghost var trace: seq<Step>

    /** The machine comes to `m` by the trace, and the fields are those of `m`. */
    ghost predicate Follows()
      reads this
    {
      && Leads(workers, trace, m, accepted, issued) && m.workers == workers
      && cancelled == m.cancelled && slots == m.slots && ch == m.ch && prepared == m.prepared
      && SameLoop(loop, m) && SameLog(log, m)
    }

    /** ...and no caller is inside `Send` or `Close`. */
    ghost predicate Valid()
      reads this
    {
      Follows() && Idle(m)
    }

    constructor (workers: nat)
      ensures Valid() && m == Init(workers) && trace == [] && accepted == {}
    {
      this.workers := workers;
      cancelled, slots, ch, prepared := false, 0, [], {};
      loop, log, issued := Loop(map[], [], {}, 0), Log(0, [], []), 0;
      m, accepted, trace := Init(workers), {}, [];
    }

    /** One step of the machine. */
    ghost method Advance(step: Step)
      requires Leads(workers, trace, m, accepted, issued) && Enabled(m, step) && NamesBelow(step, issued)
      modifies this`m, this`trace, this`accepted
      ensures m == Next(old(m), step) && trace == old(trace) + [step] && accepted == old(accepted) + AcceptedBy(step)
      ensures Leads(workers, trace, m, accepted, issued)
    {
      LeadsMore(workers, trace, m, accepted, step, issued);
      m, trace, accepted := Next(m, step), trace + [step], accepted + AcceptedBy(step);
    }

    /** One step that names no packet. */
    ghost method Move(step: Step)
      requires Leads(workers, trace, m, accepted, issued) && Enabled(m, step) && !step.SendTake? && !step.SendReject?
      modifies this`m, this`trace
      ensures m == Next(old(m), step) && trace == old(trace) + [step]
      ensures Leads(workers, trace, m, accepted, issued)
    {
      LeadsMore(workers, trace, m, accepted, step, issued);
      assert accepted + AcceptedBy(step) == accepted;
      m, trace := Next(m, step), trace + [step];
    }

    /** `queuedUDPPacket.Drop`: giving back a slot never blocks. */
    method Drop(id: nat)
      requires slots > 0
      modifies this`slots, this`log
      ensures slots == old(slots) - 1 && log == old(log).(dropped := old(log).dropped + [id])
    {
      log := log.(dropped := log.dropped + [id]);
      slots := slots - 1;
    }

    // ---------------------------------------------------------------- Send

    method Refuse(id: nat)
      requires Follows() && Enabled(m, SendReject(id)) && id < issued
      modifies this`m, this`trace, this`accepted
      ensures Follows() && accepted == old(accepted) && m == old(m).(rejected := m.rejected)
    {
      Advance(SendReject(id));
    }

    method TakeSlot(id: nat, key: Key)
      requires Follows() && Enabled(m, SendTake(id, key)) && id < issued
      modifies this`m, this`trace, this`accepted, this`slots
      ensures Follows() && accepted == old(accepted) + {id} && slots == old(slots) + 1
      ensures m == old(m).(slots := slots, holding := old(m).holding[id := key], loc := m.loc)
    {
      slots := slots + 1;
      Advance(SendTake(id, key));
    }

    /** Of the last three cases of `Send` only the first can be ready. */
    method Put(id: nat, key: Key)
      requires Follows() && id in m.holding && m.holding[id] == key
      modifies this`m, this`trace, this`ch, this`log
      ensures Follows() && |old(ch)| < CAPACITY && !cancelled
      ensures ch == old(ch) + [Item(id, key, old(log).arrivals)] && log == old(log).(arrivals := old(log).arrivals + 1)
      ensures m == old(m).(ch := ch, nextNo := log.arrivals, holding := old(m).holding - {id}, loc := m.loc)
    {
      FindsRoom(workers, trace, m, accepted, issued, id);
      ch := ch + [Item(id, key, log.arrivals)];
      log := log.(arrivals := log.arrivals + 1);
      Move(SendPut(id));
    }

    /** A name no packet has yet. */
    method NewName() returns (id: nat)
      requires Follows()
      modifies this`issued
      ensures Follows() && id < issued && Fresh(m, id) && id !in accepted
    {
      NameIsNew(workers, trace, m, accepted, issued);
      id, issued := issued, issued + 1;
    }

    /** `Send` never blocks: a packet is queued exactly when the sender is open and a slot
        is free, and is refused on the spot otherwise. The loop is not touched. */
    method Send(key: Key) returns (id: nat, queued: bool)
      requires Valid()
      modifies this`m, this`trace, this`accepted, this`slots, this`ch, this`log, this`issued
      ensures Valid() && m.pc == old(m).pc
      ensures queued <==> !cancelled && old(slots) < CAPACITY
      ensures slots == if queued then old(slots) + 1 else old(slots)
      ensures ch == if queued then old(ch) + [Item(id, key, old(log).arrivals)] else old(ch)
      ensures log == if queued then old(log).(arrivals := old(log).arrivals + 1) else old(log)
      ensures id !in old(accepted) && accepted == if queued then old(accepted) + {id} else old(accepted)
    {
      id := NewName();
      queued := !cancelled && slots < CAPACITY;
      if queued {
        TakeSlot(id, key);
        Put(id, key);
        assert m.holding == map[];
      } else {
        Refuse(id);
      }
    }

    // ---------------------------------------------------------------- Close

    method Cancel()
      requires Valid()
      modifies this`m, this`trace, this`cancelled
      ensures Follows() && cancelled && m == old(m).(closing := true, cancelled := true)
    {
      cancelled := true;
      Move(CloseBegin);
    }

    method TakeQueued() returns (packet: Item)
      requires Follows() && m.closing && m.closeHand.None? && ch != []
      modifies this`m, this`trace, this`ch
      ensures Follows() && packet == old(ch)[0] && ch == old(ch)[1..]
      ensures m == old(m).(ch := ch, closeHand := Some(packet), loc := m.loc)
    {
      packet := ch[0];
      ch := ch[1..];
      Move(CloseTake);
    }

    method DropQueued(packet: Item)
      requires Follows() && m.closeHand == Some(packet)
      modifies this`m, this`trace, this`slots, this`log
      ensures Follows() && slots == old(slots) - 1 && log == old(log).(dropped := old(log).dropped + [packet.id])
      ensures m == old(m).(slots := slots, dropped := log.dropped, closeHand := None, loc := m.loc)
    {
      HoldsSlot(workers, trace, m, accepted, issued, CloseDrop);
      Drop(packet.id);
      Move(CloseDrop);
    }

    /** `dropAll` under `Close`. */
    method DropAllQueued()
      requires Follows() && m.closing && m.closeHand.None?
      modifies this`m, this`trace, this`ch, this`slots, this`log
      ensures Follows() && ch == [] && slots == old(slots) - |old(ch)|
      ensures log == old(log).(dropped := old(log).dropped + IdSeq(old(ch)))
      ensures m == old(m).(ch := m.ch, slots := m.slots, dropped := m.dropped, loc := m.loc)
    {
      ghost var n := 0;
      while |ch| > 0
        invariant Follows() && 0 <= n <= |old(ch)| && ch == old(ch)[n..] && slots == old(slots) - n
        invariant log == old(log).(dropped := old(log).dropped + IdSeq(old(ch)[..n]))
        invariant m == old(m).(ch := m.ch, slots := m.slots, dropped := m.dropped, loc := m.loc)
        decreases |ch|
      {
        IdsMore(old(ch), n);
        var packet := TakeQueued();
        DropQueued(packet);
        n := n + 1;
      }
      assert old(ch)[..n] == old(ch);
    }

    method Finish()
      requires Follows() && m.closing && m.closeHand.None? && ch == []
      modifies this`m, this`trace
      ensures Follows() && m == old(m).(closing := false)
    {
      Move(CloseEnd);
    }

    /** `Close`: nothing is accepted any more, and what was queued is released in order. The loop
        is not touched. */
    method Close()
      requires Valid()
      modifies this`m, this`trace, this`cancelled, this`ch, this`slots, this`log
      ensures Valid() && m.pc == old(m).pc && cancelled && ch == [] && slots == old(slots) - |old(ch)|
      ensures log == old(log).(dropped := old(log).dropped + IdSeq(old(ch)))
    {
      Cancel();
      DropAllQueued();
      Finish();
    }

    // ---------------------------------------------------------------- the event loop

    /** The loop begins with empty variables, whatever was sent before. */
    method Start()
      requires Valid() && m.pc.NotStarted?
      modifies this`m, this`trace
      ensures Valid() && m.pc.Select? && loop == Loop(map[], [], {}, 0)
    {
      NothingYet(workers, trace, m, accepted, issued);
      Move(Begin);
    }

    method StartWorker() returns (key: Key)
      requires Valid() && m.pc.Starting? && !cancelled && loop.active < workers && loop.waiting != []
      modifies this`m, this`trace, this`loop
      ensures Valid() && m.pc.Starting? && key == old(loop).waiting[0]
      ensures loop == old(loop).(waiting := old(loop).waiting[1..], working := old(loop).working + {key},
                                 active := old(loop).active + 1)
    {
      key := loop.waiting[0];
      loop := loop.(waiting := loop.waiting[1..], working := loop.working + {key}, active := loop.active + 1);
      Move(StartOne);
    }

    /** `startWaiting`: keys are handed to idle workers, oldest first, until one of both runs out. */
    method StartWaiting() returns (started: seq<Key>)
      requires Valid() && m.pc.Starting?
      modifies this`m, this`trace, this`loop
      ensures Valid() && m.pc.Select?
      ensures loop.pending == old(loop).pending && HandedOut(old(loop), loop, started)
      ensures cancelled ==> started == []
      ensures cancelled || loop.active >= workers || loop.waiting == []
    {
      started := [];
      while !cancelled && loop.active < workers && |loop.waiting| > 0
        invariant Valid() && m.pc.Starting?
        invariant loop.pending == old(loop).pending && HandedOut(old(loop), loop, started)
        invariant cancelled ==> started == []
        decreases |loop.waiting|
      {
        ghost var before := loop;
        var key := StartWorker();
        HandedOneMore(old(loop), before, loop, started, key);
        started := started + [key];
      }
      Move(StartEnd);
    }

    method Receive() returns (packet: Item)
      requires Valid() && m.pc.Select? && ch != []
      modifies this`m, this`trace, this`ch
      ensures Valid() && m.pc == Got(packet) && packet == old(ch)[0] && ch == old(ch)[1..]
    {
      packet := ch[0];
      ch := ch[1..];
      Move(TakePacket);
    }

    method DropReceived(packet: Item)
      requires Valid() && m.pc == Got(packet) && cancelled
      modifies this`m, this`trace, this`slots, this`log
      ensures Valid() && m.pc.Exit? && slots == old(slots) - 1
      ensures log == old(log).(dropped := old(log).dropped + [packet.id])
    {
      HoldsSlot(workers, trace, m, accepted, issued, CheckFail);
      Drop(packet.id);
      Move(CheckFail);
    }

    method PassReceived(packet: Item)
      requires Valid() && m.pc == Got(packet) && !cancelled
      modifies this`m, this`trace
      ensures Valid() && m.pc == Checked(packet)
    {
      Move(CheckPass);
    }

    method JoinGroup(packet: Item)
      requires Valid() && m.pc == Checked(packet) && packet.key in loop.pending
      modifies this`m, this`trace, this`loop
      ensures Valid() && m.pc.Select? && loop == old(loop).(pending := Grouped(old(loop).pending, packet))
    {
      loop := loop.(pending := loop.pending[packet.key := loop.pending[packet.key] + [packet]]);
      Move(Join);
    }

    method WriteReceived(packet: Item)
      requires Valid() && m.pc == Checked(packet) && packet.key !in loop.pending && packet.key in prepared
      modifies this`m, this`trace, this`slots, this`log
      ensures Valid() && m.pc.Select? && slots == old(slots) - 1
      ensures log == old(log).(written := old(log).written + [packet], dropped := old(log).dropped + [packet.id])
    {
      HoldsSlot(workers, trace, m, accepted, issued, WriteNow);
      log := log.(written := log.written + [packet]);
      Drop(packet.id);
      Move(WriteNow);
    }

    method OpenGroup(packet: Item)
      requires Valid() && m.pc == Checked(packet) && packet.key !in loop.pending && packet.key !in prepared
      modifies this`m, this`trace, this`loop
      ensures Valid() && m.pc.Starting?
      ensures loop == old(loop).(pending := Grouped(old(loop).pending, packet),
                                 waiting := old(loop).waiting + [packet.key])
    {
      loop := loop.(pending := loop.pending[packet.key := [packet]], waiting := loop.waiting + [packet.key]);
      Move(NewGroup);
    }

    /** Where a packet that is not too late goes: into its pending group, to the socket, or into
        a group of its own, whose key waits for a worker behind those that wait already. */
    method Dispatch(packet: Item) returns (started: seq<Key>)
      requires Valid() && m.pc == Checked(packet)
      modifies this`m, this`trace, this`slots, this`log, this`loop
      ensures Valid() && m.pc.Select?
      ensures if packet.key !in old(loop).pending && packet.key in prepared
              then slots == old(slots) - 1 && Written(old(log), log, packet) && loop == old(loop) && started == []
              else slots == old(slots) && log == old(log) && Pends(old(loop), loop, packet, started)
    {
      started := [];
      if packet.key in loop.pending {
        JoinGroup(packet);
      } else if packet.key in prepared {
        WriteReceived(packet);
      } else {
        OpenGroup(packet);
        started := StartWaiting();
      }
    }

    /** The turn for the channel: the oldest packet goes where `Dispatch` puts it, or is dropped
        and the loop left if the sender is cancelled. */
    method HandlePacket() returns (left: bool, started: seq<Key>)
      requires Valid() && m.pc.Select? && ch != []
      modifies this`m, this`trace, this`ch, this`slots, this`log, this`loop
      ensures Valid() && left == cancelled && m.pc == (if left then Exit else Select) && ch == old(ch)[1..]
      ensures var p := old(ch)[0];
        if left
        then slots == old(slots) - 1 && log == old(log).(dropped := old(log).dropped + [p.id]) && loop == old(loop)
        else if p.key !in old(loop).pending && p.key in prepared
        then slots == old(slots) - 1 && Written(old(log), log, p) && loop == old(loop) && started == []
        else slots == old(slots) && log == old(log) && Pends(old(loop), loop, p, started)
    {
      started := [];
      var packet := Receive();
      left := cancelled;
      if left {
        DropReceived(packet);
      } else {
        PassReceived(packet);
        started := Dispatch(packet);
      }
    }

    /** A worker's result leaves its worker free and its group to be flushed. */
    method TakeResult(key: Key, ok: bool) returns (group: seq<Item>)
      requires Valid() && m.pc.Select? && key in loop.working
      modifies this`m, this`trace, this`loop, this`prepared
      ensures Valid() && m.pc == Flush(key, group, ok)
      ensures key in old(loop).pending && group == old(loop).pending[key] && old(loop).active > 0
      ensures loop == Loop(old(loop).pending - {key}, old(loop).waiting,
                           old(loop).working - {key}, old(loop).active - 1)
      ensures prepared == if ok then old(prepared) + {key} else old(prepared)
    {
      HasGroup(workers, trace, m, accepted, issued, key);
      group := loop.pending[key];
      loop := Loop(loop.pending - {key}, loop.waiting, loop.working - {key}, loop.active - 1);
      prepared := if ok then prepared + {key} else prepared;
      Move(TakeReady(key, ok));
    }

    method FlushPacket(packet: Item, ghost key: Key, ghost rest: seq<Item>, ok: bool)
      requires Valid() && m.pc == Flush(key, [packet] + rest, ok)
      modifies this`m, this`trace, this`slots, this`log
      ensures Valid() && m.pc == Flush(key, rest, ok) && slots == old(slots) - 1
      ensures FlushedOne(old(log), log, packet, ok && !cancelled)
    {
      HoldsSlot(workers, trace, m, accepted, issued, FlushOne);
      assert ([packet] + rest)[1..] == rest;
      if ok && !cancelled {
        log := log.(written := log.written + [packet]);
      }
      Drop(packet.id);
      Move(FlushOne);
    }

    method EndFlush(ghost key: Key, ghost ok: bool)
      requires Valid() && m.pc == Flush(key, [], ok)
      modifies this`m, this`trace
      ensures Valid() && m.pc.Starting?
    {
      Move(FlushEnd);
    }

    /** The packets of a group, one after the other: written, or dropped if its key could not be
        prepared or the sender is cancelled. */
    method FlushGroup(ghost key: Key, group: seq<Item>, ok: bool)
      requires Valid() && m.pc == Flush(key, group, ok)
      modifies this`m, this`trace, this`slots, this`log
      ensures Valid() && m.pc.Starting? && slots == old(slots) - |group|
      ensures Flushed(old(log), log, group, ok && !cancelled)
    {
      var i := 0;
      assert group[0..] == group;
      while i < |group|
        invariant 0 <= i <= |group| && Valid() && m.pc == Flush(key, group[i..], ok) && slots == old(slots) - i
        invariant Flushed(old(log), log, group[..i], ok && !cancelled)
      {
        ghost var before := log;
        assert group[i..] == [group[i]] + group[i + 1..];
        FlushPacket(group[i], key, group[i + 1..], ok);
        FlushedMore(old(log), before, log, group, i, ok && !cancelled);
        i := i + 1;
      }
      assert group[..i] == group;
      EndFlush(key, ok);
    }

    /** The turn for a worker's result: the group is written whole and in order, or dropped whole,
        and the next keys are handed out. */
    method HandleReady(key: Key, ok: bool) returns (started: seq<Key>)
      requires Valid() && m.pc.Select? && key in loop.working
      modifies this`m, this`trace, this`loop, this`prepared, this`slots, this`log
      ensures Valid() && m.pc.Select?
      ensures key in old(loop).pending && loop.pending == old(loop).pending - {key}
      ensures prepared == if ok then old(prepared) + {key} else old(prepared)
      ensures var group := old(loop).pending[key];
        slots == old(slots) - |group| && Flushed(old(log), log, group, ok && !cancelled)
      ensures started + loop.waiting == old(loop).waiting && loop.active == old(loop).active - 1 + |started|
      ensures loop.working == old(loop).working - {key} + set k | k in started
      ensures cancelled || loop.active >= workers || loop.waiting == []
    {
      var group := TakeResult(key, ok);
      FlushGroup(key, group, ok);
      started := StartWaiting();
    }

    /** `AddMapping`: from now on packets of the key are written at once. */
    method Prepare(key: Key)
      requires Valid()
      modifies this`m, this`trace, this`prepared
      ensures Valid() && m.pc == old(m).pc && prepared == old(prepared) + {key}
    {
      prepared := prepared + {key};
      Move(AddMapping(key));
    }

    // ---------------------------------------------------------------- leaving the loop

    /** The turn for the cancelled context. */
    method SeeCancelled()
      requires Valid() && m.pc.Select? && cancelled
      modifies this`m, this`trace
      ensures Valid() && m.pc.Exit?
    {
      Move(SeeDone);
    }

    method DropPending(key: Key)
      requires Valid() && m.pc.Exit? && key in loop.pending && loop.pending[key] != []
      modifies this`m, this`trace, this`slots, this`log, this`loop
      ensures Valid() && m.pc.Exit? && slots == old(slots) - 1
      ensures log == old(log).(dropped := old(log).dropped + [old(loop).pending[key][0].id])
      ensures loop == old(loop).(pending := Unpended(old(loop).pending, key))
    {
      HoldsSlot(workers, trace, m, accepted, issued, ExitDrop(key));
      Drop(loop.pending[key][0].id);
      loop := loop.(pending := Unpended(loop.pending, key));
      Move(ExitDrop(key));
    }

    /** Drops one pending group in order. */
    method DropGroup(key: Key)
      requires Valid() && m.pc.Exit? && key in loop.pending
      modifies this`m, this`trace, this`slots, this`log, this`loop
      ensures Valid() && m.pc.Exit? && loop == old(loop).(pending := old(loop).pending - {key})
      ensures slots == old(slots) - |old(loop).pending[key]|
      ensures log == old(log).(dropped := old(log).dropped + IdSeq(old(loop).pending[key]))
    {
      GroupHasPackets(workers, trace, m, accepted, issued, key);
      var group := loop.pending[key];
      var i := 0;
      while i < |group|
        invariant 0 <= i <= |group| && Valid() && m.pc.Exit? && slots == old(slots) - i
        invariant loop == old(loop).(pending := if i < |group| then old(loop).pending[key := group[i..]]
                                                else old(loop).pending - {key})
        invariant log == old(log).(dropped := old(log).dropped + IdSeq(group[..i]))
      {
        IdsMore(group, i);
        DropPending(key);
        i := i + 1;
      }
      assert group[..i] == group;
    }

    /** Drops every pending group, in any order of the groups. */
    method DropGroups()
      requires Valid() && m.pc.Exit?
      modifies this`m, this`trace, this`slots, this`log, this`loop
      ensures Valid() && m.pc.Exit? && loop.pending == map[]
      ensures old(log).dropped <= log.dropped && |log.dropped| + slots == |old(log).dropped| + old(slots)
      ensures log.arrivals == old(log).arrivals && log.written == old(log).written
      ensures forall k :: k in old(loop).pending ==> AllIn(old(loop).pending[k], log.dropped)
    {
      while loop.pending != map[]
        invariant Valid() && m.pc.Exit?
        invariant old(log).dropped <= log.dropped && |log.dropped| + slots == |old(log).dropped| + old(slots)
        invariant log.arrivals == old(log).arrivals && log.written == old(log).written
        invariant forall k :: k in loop.pending ==> k in old(loop).pending && loop.pending[k] == old(loop).pending[k]
        invariant forall k :: k in old(loop).pending && k !in loop.pending ==> AllIn(old(loop).pending[k], log.dropped)
        decreases |loop.pending|
      {
        var key :| key in loop.pending;
        AllInMore(log.dropped, loop.pending[key]);
        DropGroup(key);
      }
    }

    method EndGroups()
      requires Valid() && m.pc.Exit? && loop.pending == map[]
      modifies this`m, this`trace
      ensures Valid() && m.pc.Drain?
    {
      Move(ExitEnd);
    }

    method TakeLeft() returns (packet: Item)
      requires Valid() && m.pc.Drain? && ch != []
      modifies this`m, this`trace, this`ch
      ensures Valid() && m.pc == DrainHand(packet) && packet == old(ch)[0] && ch == old(ch)[1..]
    {
      packet := ch[0];
      ch := ch[1..];
      Move(DrainTake);
    }

    method DropLeft(packet: Item)
      requires Valid() && m.pc == DrainHand(packet)
      modifies this`m, this`trace, this`slots, this`log
      ensures Valid() && m.pc.Drain? && slots == old(slots) - 1
      ensures log == old(log).(dropped := old(log).dropped + [packet.id])
    {
      HoldsSlot(workers, trace, m, accepted, issued, DrainDrop);
      Drop(packet.id);
      Move(DrainDrop);
    }

    method EndDrain()
      requires Valid() && m.pc.Drain? && ch == []
      modifies this`m, this`trace
      ensures Valid() && m.pc.Stopped?
    {
      Move(DrainEnd);
    }

    /** `dropAll` at the end of the loop. */
    method DrainChannel()
      requires Valid() && m.pc.Drain?
      modifies this`m, this`trace, this`ch, this`slots, this`log
      ensures Valid() && m.pc.Stopped? && ch == [] && slots == old(slots) - |old(ch)|
      ensures log == old(log).(dropped := old(log).dropped + IdSeq(old(ch)))
    {
      ghost var n := 0;
      while |ch| > 0
        invariant Valid() && m.pc.Drain?
        invariant 0 <= n <= |old(ch)| && ch == old(ch)[n..] && slots == old(slots) - n
        invariant log == old(log).(dropped := old(log).dropped + IdSeq(old(ch)[..n]))
        decreases |ch|
      {
        IdsMore(old(ch), n);
        var packet := TakeLeft();
        DropLeft(packet);
        n := n + 1;
      }
      assert old(ch)[..n] == old(ch);
      EndDrain();
    }

    /** The deferred cleanup of the loop: every pending group and the rest of the channel are
        dropped, each packet giving back its slot. */
    method Leave()
      requires Valid() && m.pc.Exit?
      modifies this`m, this`trace, this`ch, this`slots, this`log, this`loop
      ensures Valid() && m.pc.Stopped? && loop.pending == map[] && ch == []
      ensures old(log).dropped <= log.dropped && |log.dropped| + slots == |old(log).dropped| + old(slots)
      ensures log.arrivals == old(log).arrivals && log.written == old(log).written
      ensures AllIn(old(ch), log.dropped)
      ensures forall k :: k in old(loop).pending ==> AllIn(old(loop).pending[k], log.dropped)
    {
      DropGroups();
      EndGroups();
      AllInMore(log.dropped, ch);
      DrainChannel();
    }

    // ---------------------------------------------------------------- whole lives

    /** One thing that happens; what is not ready is passed over. */
    method Handle(event: Event) returns (left: bool, taken: seq<nat>)
      requires Valid() && m.pc.Select?
      modifies this
      ensures Valid() && m.pc == (if left then Exit else Select) && (left ==> cancelled)
      ensures accepted == old(accepted) + set id | id in taken
    {
      left, taken := false, [];
      match event
      case Arrival(key) =>
        var id, queued := Send(key);
        taken := if queued then [id] else [];
      case Packet =>
        if |ch| > 0 {
          var over, _ := HandlePacket();
          left := over;
        }
      case Result(key, ok) =>
        if key in loop.working {
          var _ := HandleReady(key, ok);
        }
      case Mapped(key) => Prepare(key);
      case Shut => Close();
      case Done =>
        if cancelled {
          SeeCancelled();
          left := true;
        }
    }

    /** The life of a sender, from the start of its loop to the end: whatever happens meanwhile,
        every packet accepted is released exactly once, no slot is kept, and what was written
        left in order of arrival for each key, to prepared targets only. */
    method Process(events: seq<Event>) returns (taken: seq<nat>)
      requires Valid() && m.pc.NotStarted?
      modifies this
      ensures Valid() && m.pc.Stopped? && cancelled && ch == [] && loop.pending == map[] && slots == 0
      ensures accepted == old(accepted) + set id | id in taken
      ensures ReleasedOnce(log.dropped, accepted)
      ensures SameKeyOrdered(log.written) && AllPrepared(log.written, prepared)
    {
      taken := [];
      Start();
      var i, left := 0, false;
      while i < |events| && !left
        invariant Valid() && m.pc == (if left then Exit else Select) && (left ==> cancelled)
        invariant accepted == old(accepted) + set id | id in taken
      {
        var more;
        left, more := Handle(events[i]);
        taken := taken + more;
        i := i + 1;
      }
      if !left {
        Close();
        SeeCancelled();
      }
      Leave();
      LeavesNothing(workers, trace, m, accepted, issued);
    }
  }
}
