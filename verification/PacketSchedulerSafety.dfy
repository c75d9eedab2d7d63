/**
 Safety of the UDP packet sender over every interleaving: slots, phases of shutdown,
 the keys waiting for a resolver worker, and the order packets are written in.
 */
module PacketSchedulerSafety {
  import opened NetTypes
  import opened PacketScheduler

  // ---------------------------------------------------------------- phases

  predicate Leaving(pc: Pc) {
    pc.Exit? || pc.Drain? || pc.DrainHand? || pc.Stopped?
  }

  predicate Phases(s: State) {
    && (s.cancelled ==> s.holding == map[])
    && (s.closing ==> s.cancelled)
    && (s.cancelled && !s.closing ==> s.ch == [])
    && (s.closeHand.Some? ==> s.closing)
    && (Leaving(s.pc) ==> s.cancelled)
    && (s.pc.NotStarted? ==> s.pending == map[] && s.waiting == [] && s.inflight == {} && s.active == 0)
    && (s.pc.Drain? || s.pc.DrainHand? || s.pc.Stopped? ==> s.pending == map[])
  }

  /** The steps of callers of Send, Close and AddMapping; all others belong to the event loop. */
  predicate CallerStep(step: Step) {
    || step.SendReject? || step.SendTake? || step.SendPut? || step.SendFull? || step.SendLate?
    || step.CloseBegin? || step.CloseTake? || step.CloseDrop? || step.CloseEnd? || step.AddMapping?
  }

  lemma PhasesCaller(s: State, step: Step)
    requires Phases(s) && Enabled(s, step) && CallerStep(step)
    ensures Phases(Next(s, step))
  {
  }

  lemma PhasesLoop(s: State, step: Step)
    requires Phases(s) && Enabled(s, step) && !CallerStep(step) && !Leaving(s.pc)
    ensures Phases(Next(s, step))
  {
  }

  lemma PhasesLeaving(s: State, step: Step)
    requires Phases(s) && Enabled(s, step) && !CallerStep(step) && Leaving(s.pc)
    ensures Phases(Next(s, step))
  {
  }

  lemma PhasesKept(s: State, step: Step)
    requires Phases(s) && Enabled(s, step)
    ensures Phases(Next(s, step))
  {
    if CallerStep(step) {
      PhasesCaller(s, step);
    } else if Leaving(s.pc) {
      PhasesLeaving(s, step);
    } else {
      PhasesLoop(s, step);
    }
  }

  // ---------------------------------------------------------------- keys and workers

  /** The keys with a pending group are those waiting for a worker and those being
      prepared by one, never both; workers are never over-committed, and while nothing is
      cancelled no worker is idle as long as a key waits. */
  ghost predicate Scheduling(s: State) {
    && (!Leaving(s.pc) ==>
          && (forall k :: k in s.pending <==> k in s.waiting || k in s.inflight)
          && (forall k :: k in s.waiting ==> k !in s.inflight))
    && (forall i, j :: 0 <= i < j < |s.waiting| ==> s.waiting[i] != s.waiting[j])
    && (forall k :: k in s.pending ==> s.pending[k] != [])
    && s.active == |s.inflight| && s.active <= s.workers
    && (!s.cancelled && (s.pc.Select? || s.pc.Got? || s.pc.Checked?) ==> s.active >= s.workers || s.waiting == [])
  }

  lemma SchedulingStart(s: State, step: Step)
    requires Scheduling(s) && Enabled(s, step) && step.StartOne?
    ensures Scheduling(Next(s, step))
  {
    assert forall k :: k in s.waiting <==> k == s.waiting[0] || k in s.waiting[1..];
    assert forall i :: 0 <= i < |s.waiting| - 1 ==> s.waiting[1..][i] == s.waiting[i + 1];
  }

  lemma SchedulingNew(s: State, step: Step)
    requires Scheduling(s) && Enabled(s, step) && step.NewGroup?
    ensures Scheduling(Next(s, step))
  {
    var u := Next(s, step);
    assert forall k :: k in u.waiting <==> k in s.waiting || k == s.pc.item.key;
  }

  lemma SchedulingReady(s: State, step: Step)
    requires Scheduling(s) && Enabled(s, step) && step.TakeReady?
    ensures Scheduling(Next(s, step))
  {
  }

  lemma SchedulingGroups(s: State, step: Step)
    requires Scheduling(s) && Phases(s) && Enabled(s, step) && (step.Join? || step.ExitDrop?)
    ensures Scheduling(Next(s, step))
  {
  }

  lemma SchedulingSame(s: State, u: State)
    requires Scheduling(s) && (Leaving(s.pc) ==> Leaving(u.pc))
    requires u.pending == s.pending && u.waiting == s.waiting && u.inflight == s.inflight
    requires u.active == s.active && u.workers == s.workers
    requires !u.cancelled && (u.pc.Select? || u.pc.Got? || u.pc.Checked?) ==> u.active >= u.workers || u.waiting == []
    ensures Scheduling(u)
  {
  }

  predicate Reschedules(step: Step) {
    step.StartOne? || step.NewGroup? || step.TakeReady? || step.Join? || step.ExitDrop?
  }

  lemma SchedulingCaller(s: State, step: Step)
    requires Scheduling(s) && Enabled(s, step) && CallerStep(step)
    ensures Scheduling(Next(s, step))
  {
    SchedulingSame(s, Next(s, step));
  }

  lemma SchedulingIdle(s: State, step: Step)
    requires Scheduling(s) && Phases(s) && Enabled(s, step) && !Reschedules(step) && !CallerStep(step)
    ensures Scheduling(Next(s, step))
  {
    SchedulingSame(s, Next(s, step));
  }

  lemma SchedulingKept(s: State, step: Step)
    requires Scheduling(s) && Phases(s) && Enabled(s, step)
    ensures Scheduling(Next(s, step))
  {
    if step.StartOne? {
      SchedulingStart(s, step);
    } else if step.NewGroup? {
      SchedulingNew(s, step);
    } else if step.TakeReady? {
      SchedulingReady(s, step);
    } else if step.Join? || step.ExitDrop? {
      SchedulingGroups(s, step);
    } else if CallerStep(step) {
      SchedulingCaller(s, step);
    } else {
      SchedulingIdle(s, step);
    }
  }

  // ---------------------------------------------------------------- order and preparation

  predicate Sorted(items: seq<Item>) {
    forall i, j :: 0 <= i < j < |items| ==> items[i].no < items[j].no
  }

  predicate Below(items: seq<Item>, n: int) {
    forall i :: 0 <= i < |items| ==> items[i].no < n
  }

  /** Everything taken from the channel so far is older than this. */
  function Frontier(s: State): nat {
    if s.ch == [] then s.nextNo else s.ch[0].no
  }

  predicate SameKeyOrdered(items: seq<Item>) {
    forall i, j :: 0 <= i < j < |items| && items[i].key == items[j].key ==> items[i].no < items[j].no
  }

  predicate OlderThanGroup(written: seq<Item>, key: Key, group: seq<Item>) {
    forall i, j :: 0 <= i < |written| && 0 <= j < |group| && written[i].key == key ==> written[i].no < group[j].no
  }

  /** Age bound of what the loop has already sorted into groups or written. */
  function Bound(s: State): int {
    if Hand(s.pc).Some? then Hand(s.pc).value.no else Frontier(s)
  }

  ghost predicate Order(s: State) {
    && Sorted(s.ch) && Below(s.ch, s.nextNo)
    && (Hand(s.pc).Some? ==> Hand(s.pc).value.no < Frontier(s))
    && (forall k ::
          && Sorted(GroupOf(s, k)) && Below(GroupOf(s, k), Bound(s))
          && OlderThanGroup(s.written, k, GroupOf(s, k)))
    && Below(s.written, Bound(s))
    && SameKeyOrdered(s.written)
  }

  lemma FrontierGrows(s: State)
    requires Sorted(s.ch) && Below(s.ch, s.nextNo) && s.ch != []
    ensures var u := s.(ch := s.ch[1..]); s.ch[0].no < Frontier(u) && Sorted(u.ch) && Below(u.ch, s.nextNo)
  {
    assert forall i :: 0 <= i < |s.ch| - 1 ==> s.ch[1..][i] == s.ch[i + 1];
  }

  /** Steps that leave groups and written packets alone and only raise the age bound. */
  lemma OrderRaised(s: State, u: State)
    requires Order(s) && u.written == s.written && Bound(s) <= Bound(u)
    requires forall k :: GroupOf(u, k) == GroupOf(s, k)
    requires Sorted(u.ch) && Below(u.ch, u.nextNo) && (Hand(u.pc).Some? ==> Hand(u.pc).value.no < Frontier(u))
    ensures Order(u)
  {
  }

  lemma OrderPut(s: State, id: nat)
    requires Order(s) && Enabled(s, SendPut(id))
    ensures Order(Next(s, SendPut(id)))
  {
    var u := Next(s, SendPut(id));
    assert forall i :: 0 <= i < |s.ch| ==> u.ch[i] == s.ch[i];
    assert forall k :: GroupOf(u, k) == GroupOf(s, k);
    OrderRaised(s, u);
  }

  lemma OrderTake(s: State, step: Step)
    requires Order(s) && Enabled(s, step) && (step.CloseTake? || step.TakePacket? || step.DrainTake?)
    ensures Order(Next(s, step))
  {
    var u := Next(s, step);
    FrontierGrows(s);
    assert forall k :: GroupOf(u, k) == GroupOf(s, k);
    OrderRaised(s, u);
  }

  /** The loop's hand is empty again without anything written or grouped. */
  lemma OrderDropHand(s: State, step: Step)
    requires Order(s) && Enabled(s, step) && (step.CheckFail? || step.DrainDrop? || step.CheckPass?)
    ensures Order(Next(s, step))
  {
    var u := Next(s, step);
    assert forall k :: GroupOf(u, k) == GroupOf(s, k);
    OrderRaised(s, u);
  }

  lemma WrittenSnoc(written: seq<Item>, item: Item, n: int)
    requires SameKeyOrdered(written) && Below(written, n) && item.no < n
    requires OlderThanGroup(written, item.key, [item])
    ensures SameKeyOrdered(written + [item]) && Below(written + [item], n)
  {
    assert forall i :: 0 <= i < |written| && written[i].key == item.key ==> written[i].no < [item][0].no;
  }

  lemma OrderWriteNow(s: State)
    requires Order(s) && Enabled(s, WriteNow)
    ensures Order(Next(s, WriteNow))
  {
    var u := Next(s, WriteNow);
    var item := s.pc.item;
    assert forall k :: GroupOf(u, k) == GroupOf(s, k) && (k == item.key ==> GroupOf(u, k) == []);
    assert Below(s.written, item.no);
    WrittenSnoc(s.written, item, Frontier(u));
    assert u.written == s.written + [item];
    forall k ensures OlderThanGroup(u.written, k, GroupOf(u, k)) {
      assert OlderThanGroup(s.written, k, GroupOf(s, k));
    }
  }

  /** The packet in the loop's hand joins the queue of its key. */
  lemma OrderGroup(s: State, u: State, item: Item)
    requires Order(s) && Hand(s.pc) == Some(item) && Hand(u.pc) == None
    requires GroupOf(u, item.key) == GroupOf(s, item.key) + [item]
    requires forall k :: k != item.key ==> GroupOf(u, k) == GroupOf(s, k)
    requires u.ch == s.ch && u.nextNo == s.nextNo && u.written == s.written
    ensures Order(u)
  {
    assert Below(GroupOf(s, item.key), item.no) && Below(s.written, item.no);
    forall k
      ensures Sorted(GroupOf(u, k)) && Below(GroupOf(u, k), Bound(u)) && OlderThanGroup(u.written, k, GroupOf(u, k))
    {
      assert Sorted(GroupOf(s, k)) && Below(GroupOf(s, k), Bound(s)) && OlderThanGroup(s.written, k, GroupOf(s, k));
    }
  }

  lemma OrderJoin(s: State)
    requires Order(s) && Enabled(s, Join)
    ensures Order(Next(s, Join))
  {
    OrderGroup(s, Next(s, Join), s.pc.item);
  }

  lemma OrderNewGroup(s: State)
    requires Order(s) && Enabled(s, NewGroup)
    ensures Order(Next(s, NewGroup))
  {
    OrderGroup(s, Next(s, NewGroup), s.pc.item);
  }

  lemma OrderIdle(s: State, step: Step)
    requires Order(s) && Enabled(s, step) && !step.CheckPass?
    requires MovesNothing(step) || step.SendTake? || step.SendFull? || step.SendLate? || step.CloseDrop?
    ensures Order(Next(s, step))
  {
    if CallerStep(step) {
      OrderIdleCaller(s, step);
    } else {
      OrderIdleLoop(s, step);
    }
  }

  lemma OrderIdleCaller(s: State, step: Step)
    requires Order(s) && Enabled(s, step) && CallerStep(step) && !step.SendPut? && !step.CloseTake?
    ensures Order(Next(s, step))
  {
    var u := Next(s, step);
    assert u.ch == s.ch && u.written == s.written && Hand(u.pc) == Hand(s.pc) && u.nextNo == s.nextNo;
    assert forall k :: GroupOf(u, k) == GroupOf(s, k);
    OrderRaised(s, u);
  }

  lemma OrderIdleLoop(s: State, step: Step)
    requires Order(s) && Enabled(s, step) && !CallerStep(step) && MovesNothing(step) && !step.CheckPass?
    ensures Order(Next(s, step))
  {
    var u := Next(s, step);
    assert u.ch == s.ch && u.written == s.written && Hand(u.pc) == Hand(s.pc) && u.nextNo == s.nextNo;
    assert forall k :: GroupOf(u, k) == GroupOf(s, k);
    OrderRaised(s, u);
  }

  /** The head of a group leaves it, written or not. */
  lemma OrderUngroup(s: State, u: State, key: Key)
    requires Order(s) && GroupOf(s, key) != [] && GroupOf(u, key) == GroupOf(s, key)[1..]
    requires forall i :: 0 <= i < |GroupOf(s, key)| ==> GroupOf(s, key)[i].key == key
    requires forall k :: k != key ==> GroupOf(u, k) == GroupOf(s, k)
    requires u.written == s.written || u.written == s.written + [GroupOf(s, key)[0]]
    requires u.ch == s.ch && u.nextNo == s.nextNo && Hand(u.pc) == Hand(s.pc)
    ensures Order(u)
  {
    var group := GroupOf(s, key);
    assert forall i :: 0 <= i < |group| - 1 ==> group[1..][i] == group[i + 1];
    assert Below(group, Bound(s)) && OlderThanGroup(s.written, key, group) && Sorted(group);
    if u.written != s.written {
      WrittenSnoc(s.written, group[0], Bound(s));
    }
    forall k
      ensures Sorted(GroupOf(u, k)) && Below(GroupOf(u, k), Bound(u)) && OlderThanGroup(u.written, k, GroupOf(u, k))
    {
      assert Sorted(GroupOf(s, k)) && Below(GroupOf(s, k), Bound(s)) && OlderThanGroup(s.written, k, GroupOf(s, k));
    }
  }

  lemma OrderFlush(s: State)
    requires Order(s) && Custody(s) && Enabled(s, FlushOne)
    ensures Order(Next(s, FlushOne))
  {
    var u := Next(s, FlushOne);
    var key := s.pc.key;
    assert u.pc == Flush(key, s.pc.items[1..], s.pc.ok) && u.pending == s.pending && key !in s.pending;
    assert GroupOf(s, key) == s.pc.items && GroupOf(u, key) == s.pc.items[1..];
    assert forall k :: k != key ==> GroupOf(u, k) == GroupOf(s, k);
    OrderUngroup(s, u, key);
  }

  lemma OrderExit(s: State, key: Key)
    requires Order(s) && Custody(s) && Enabled(s, ExitDrop(key))
    ensures Order(Next(s, ExitDrop(key)))
  {
    OrderUngroup(s, Next(s, ExitDrop(key)), key);
  }

  lemma OrderReady(s: State, key: Key, ok: bool)
    requires Order(s) && Enabled(s, TakeReady(key, ok))
    ensures Order(Next(s, TakeReady(key, ok)))
  {
    var u := Next(s, TakeReady(key, ok));
    assert forall k :: GroupOf(u, k) == GroupOf(s, k);
    OrderRaised(s, u);
  }

  lemma OrderKept(s: State, step: Step)
    requires Order(s) && Custody(s) && Enabled(s, step)
    ensures Order(Next(s, step))
  {
    match step
    case SendPut(id) => OrderPut(s, id);
    case CloseTake => OrderTake(s, step);
    case TakePacket => OrderTake(s, step);
    case DrainTake => OrderTake(s, step);
    case CheckFail => OrderDropHand(s, step);
    case DrainDrop => OrderDropHand(s, step);
    case CheckPass => OrderDropHand(s, step);
    case WriteNow => OrderWriteNow(s);
    case Join => OrderJoin(s);
    case NewGroup => OrderNewGroup(s);
    case FlushOne => OrderFlush(s);
    case ExitDrop(key) => OrderExit(s, key);
    case TakeReady(key, ok) => OrderReady(s, key, ok);
    case _ => OrderIdle(s, step);
  }

  /** Whatever was written, and whatever is about to be, has a prepared target. */
  predicate PreparedFirst(s: State) {
    && (forall i :: 0 <= i < |s.written| ==> s.written[i].key in s.prepared)
    && (s.pc.Flush? && s.pc.ok ==> s.pc.key in s.prepared)
  }

  lemma PreparedWrite(s: State, step: Step)
    requires PreparedFirst(s) && Custody(s) && Enabled(s, step) && (step.FlushOne? || step.WriteNow?)
    ensures PreparedFirst(Next(s, step)) && s.prepared <= Next(s, step).prepared
  {
    if step.FlushOne? {
      assert GroupOf(s, s.pc.key) == s.pc.items;
    }
  }

  lemma PreparedCaller(s: State, step: Step)
    requires PreparedFirst(s) && Enabled(s, step) && CallerStep(step)
    ensures PreparedFirst(Next(s, step)) && s.prepared <= Next(s, step).prepared
  {
    assert Next(s, step).written == s.written && Next(s, step).pc == s.pc;
  }

  lemma PreparedLoop(s: State, step: Step)
    requires PreparedFirst(s) && Enabled(s, step) && !CallerStep(step) && !step.FlushOne? && !step.WriteNow?
    ensures PreparedFirst(Next(s, step)) && s.prepared <= Next(s, step).prepared
  {
    assert Next(s, step).written == s.written;
  }

  lemma PreparedKept(s: State, step: Step)
    requires PreparedFirst(s) && Custody(s) && Enabled(s, step)
    ensures PreparedFirst(Next(s, step)) && s.prepared <= Next(s, step).prepared
  {
    if step.FlushOne? || step.WriteNow? {
      PreparedWrite(s, step);
    } else if CallerStep(step) {
      PreparedCaller(s, step);
    } else {
      PreparedLoop(s, step);
    }
  }

  // ---------------------------------------------------------------- whole runs

  ghost predicate Safe(s: State) {
    Custody(s) && Phases(s) && Scheduling(s) && Order(s) && PreparedFirst(s)
  }

  ghost predicate IsRun(states: seq<State>, steps: seq<Step>) {
    && |states| == |steps| + 1
    && states[0] == Init(states[0].workers)
    && forall i :: 0 <= i < |steps| ==> Enabled(states[i], steps[i]) && states[i + 1] == Next(states[i], steps[i])
  }

  lemma InitSafe(workers: nat)
    ensures Safe(Init(workers))
  {
  }

  lemma SafeKept(s: State, step: Step)
    requires Safe(s) && Enabled(s, step)
    ensures Safe(Next(s, step))
  {
    CustodyKept(s, step);
    PhasesKept(s, step);
    SchedulingKept(s, step);
    OrderKept(s, step);
    PreparedKept(s, step);
  }

  lemma {:induction false} RunSafe(states: seq<State>, steps: seq<Step>, i: nat)
    requires IsRun(states, steps) && i < |states|
    ensures Safe(states[i])
  {
    if i == 0 {
      InitSafe(states[0].workers);
    } else {
      RunSafe(states, steps, i - 1);
      SafeKept(states[i - 1], steps[i - 1]);
    }
  }

  /** In every interleaving the slots held are the accepted packets not yet dropped, and
      every accepted packet is dropped at most once. */
  lemma SlotsAreConserved(states: seq<State>, steps: seq<Step>, i: nat)
    requires IsRun(states, steps) && i < |states|
    ensures var s := states[i];
      && s.slots == |s.loc.Keys - set id | id in s.dropped| && 0 <= s.slots <= 128
      && (forall id :: id in s.dropped ==> id in s.loc && id !in s.rejected)
      && (forall p, q :: 0 <= p < q < |s.dropped| ==> s.dropped[p] != s.dropped[q])
  {
    RunSafe(states, steps, i);
    var s := states[i];
    assert AtPlace(s.loc, Gone) == Here(s, Gone);
    assert forall id :: id in s.dropped ==> id in Here(s, Gone);
    assert Live(s.loc) == s.loc.Keys - set id | id in s.dropped;
  }

  /** After a slot was taken the channel always has room and the sender is not cancelled:
      the last two branches of `Send` cannot be taken. */
  lemma ChannelNeverFull(states: seq<State>, steps: seq<Step>, i: nat, id: nat)
    requires IsRun(states, steps) && i < |states|
    ensures !Enabled(states[i], SendFull(id)) && !Enabled(states[i], SendLate(id))
    ensures id in states[i].holding ==> Enabled(states[i], SendPut(id))
  {
    RunSafe(states, steps, i);
    if id in states[i].holding {
      RoomForHeld(states[i], id);
    }
  }

  /** A packet that holds a slot but is not in the channel leaves room in it. */
  lemma RoomForHeld(s: State, id: nat)
    requires Safe(s) && id in s.holding
    ensures |s.ch| < CAPACITY && !s.cancelled
  {
    IdsCount(s.ch);
    assert AtPlace(s.loc, Holding) == Here(s, Holding) && AtPlace(s.loc, InChannel) == Here(s, InChannel);
    assert id in AtPlace(s.loc, Holding) && Ids(s.ch) <= Live(s.loc) - {id};
    SubsetSize(Ids(s.ch), Live(s.loc) - {id});
  }

  /** Once a `Close` has returned and the loop has stopped (or was never started), no slot
      is held and every accepted packet has been dropped. */
  lemma CloseReleasesEverything(states: seq<State>, steps: seq<Step>, i: nat)
    requires IsRun(states, steps) && i < |states|
    requires states[i].cancelled && !states[i].closing && (states[i].pc.Stopped? || states[i].pc.NotStarted?)
    ensures states[i].slots == 0 && forall id :: id in states[i].loc ==> id in states[i].dropped
  {
    RunSafe(states, steps, i);
    NothingKept(states[i]);
  }

  lemma NothingKept(s: State)
    requires Safe(s) && s.cancelled && !s.closing && (s.pc.Stopped? || s.pc.NotStarted?)
    ensures s.slots == 0 && forall id :: id in s.loc <==> id in s.dropped
  {
    forall id | id in s.loc ensures s.loc[id] == Gone {
      var place := s.loc[id];
      assert id in AtPlace(s.loc, place);
      assert id in Here(s, place);
    }
    assert Live(s.loc) == {};
    assert AtPlace(s.loc, Gone) == Here(s, Gone);
    forall id ensures id in s.loc <==> id in s.dropped {
      assert id in Here(s, Gone) <==> id in AtPlace(s.loc, Gone);
    }
  }

  // ---------------------------------------------------------------- the loop ends after a cancellation

  function Rank(pc: Pc): nat {
    match pc
    case Stopped => 0
    case Drain => 1
    case DrainHand(_) => 1
    case Exit => 2
    case Select => 3
    case Starting => 4
    case Flush(_, _, _) => 5
    case Got(_) => 5
    case Checked(_) => 5
    case NotStarted => 6
  }

  /** What a cancelled loop still has to do. */
  function Remaining(s: State): int {
    s.slots + 3 * |s.inflight| + 3 * |s.ch| + Rank(s.pc)
  }

  lemma CallersAddNothing(s: State, step: Step)
    requires Safe(s) && s.cancelled && Enabled(s, step) && CallerStep(step)
    ensures Next(s, step).cancelled && Remaining(Next(s, step)) <= Remaining(s)
  {
  }

  /** The loop's turns that end with a packet dropped. */
  predicate DropStep(step: Step) {
    step.FlushOne? || step.CheckFail? || step.WriteNow? || step.ExitDrop? || step.DrainDrop?
  }

  lemma DroppingAdvances(s: State, step: Step)
    requires s.cancelled && Enabled(s, step) && DropStep(step)
    ensures Next(s, step).cancelled && Remaining(Next(s, step)) < Remaining(s)
  {
  }

  lemma MovingAdvances(s: State, step: Step)
    requires s.cancelled && Enabled(s, step) && !CallerStep(step) && !DropStep(step) && !step.TakeReady?
    ensures Next(s, step).cancelled && Remaining(Next(s, step)) < Remaining(s)
  {
  }

  lemma ReadyAdvances(s: State, key: Key, ok: bool)
    requires s.cancelled && Enabled(s, TakeReady(key, ok))
    ensures var u := Next(s, TakeReady(key, ok)); u.cancelled && Remaining(u) < Remaining(s)
  {
    assert |s.inflight - {key}| == |s.inflight| - 1;
  }

  function Cost(step: Step): nat { if CallerStep(step) then 0 else 1 }

  lemma StepRemains(s: State, step: Step, u: State)
    requires Safe(s) && s.cancelled && Enabled(s, step) && u == Next(s, step)
    ensures u.cancelled && Cost(step) + Remaining(u) <= Remaining(s)
  {
    if CallerStep(step) {
      CallersAddNothing(s, step);
    } else if DropStep(step) {
      DroppingAdvances(s, step);
    } else if step.TakeReady? {
      ReadyAdvances(s, step.key, step.ok);
    } else {
      MovingAdvances(s, step);
    }
  }

  /** A cancelled loop that has not stopped can always do something. */
  lemma LoopNeverStuck(s: State) returns (step: Step)
    requires Safe(s) && s.cancelled && !s.pc.Stopped?
    ensures Enabled(s, step) && !CallerStep(step)
  {
    match s.pc
    case NotStarted => step := Begin;
    case Select => step := SeeDone;
    case Got(_) => step := CheckFail;
    case Checked(item) =>
      step := if item.key in s.pending then Join else if item.key in s.prepared then WriteNow else NewGroup;
    case Starting => step := StartEnd;
    case Flush(_, items, _) => step := if items == [] then FlushEnd else FlushOne;
    case Exit =>
      if s.pending == map[] {
        step := ExitEnd;
      } else {
        var key :| key in s.pending;
        step := ExitDrop(key);
      }
    case Drain => step := if s.ch == [] then DrainEnd else DrainTake;
    case DrainHand(_) => step := DrainDrop;
  }

  function LoopSteps(steps: seq<Step>): nat {
    if steps == [] then 0 else LoopSteps(steps[..|steps| - 1]) + Cost(steps[|steps| - 1])
  }

  lemma RunStepRemains(states: seq<State>, steps: seq<Step>, j: nat)
    requires IsRun(states, steps) && j < |steps| && states[j].cancelled
    ensures states[j + 1].cancelled && Cost(steps[j]) + Remaining(states[j + 1]) <= Remaining(states[j])
  {
    RunSafe(states, steps, j);
    StepRemains(states[j], steps[j], states[j + 1]);
  }

  lemma {:induction false} StaysCancelled(states: seq<State>, steps: seq<Step>, i: nat, j: nat)
    requires IsRun(states, steps) && i <= j < |states| && states[i].cancelled
    ensures states[j].cancelled
    decreases j - i
  {
    if i < j {
      StaysCancelled(states, steps, i, j - 1);
      RunStepRemains(states, steps, j - 1);
    }
  }

  lemma {:induction false} CostsAddUp(remaining: seq<int>, steps: seq<Step>, i: nat, j: nat)
    requires i <= j <= |steps| < |remaining|
    requires forall k :: i <= k < j ==> Cost(steps[k]) + remaining[k + 1] <= remaining[k]
    ensures LoopSteps(steps[i..j]) + remaining[j] <= remaining[i]
    decreases j - i
  {
    if i < j {
      CostsAddUp(remaining, steps, i, j - 1);
      assert steps[i..j][..j - i - 1] == steps[i..j - 1];
      assert Cost(steps[j - 1]) + remaining[j - 1 + 1] <= remaining[j - 1];
    }
  }

  /** Over every continuation of a cancelled run, whatever the callers do: the loop takes at most
      `Remaining` steps more, and as long as it has not stopped one of its steps is enabled. */
  lemma LoopStops(states: seq<State>, steps: seq<Step>, i: nat, j: nat)
    requires IsRun(states, steps) && i <= j < |states| && states[i].cancelled
    ensures LoopSteps(steps[i..j]) <= Remaining(states[i])
    ensures states[j].pc.Stopped? || exists step :: Enabled(states[j], step) && !CallerStep(step)
  {
    var remaining := seq(|states|, k requires 0 <= k < |states| => Remaining(states[k]));
    forall k | i <= k < j ensures Cost(steps[k]) + remaining[k + 1] <= remaining[k] {
      StaysCancelled(states, steps, i, k);
      RunStepRemains(states, steps, k);
    }
    CostsAddUp(remaining, steps, i, j);
    StaysCancelled(states, steps, i, j);
    RunSafe(states, steps, j);
    if !states[j].pc.Stopped? {
      var step := LoopNeverStuck(states[j]);
    }
  }

  /** Pending keys are the disjoint union of waiting and in-flight keys with non-empty
      groups, and workers are neither over-committed nor idle while a key waits. */
  lemma WorkersAreUsed(states: seq<State>, steps: seq<Step>, i: nat)
    requires IsRun(states, steps) && i < |states|
    ensures var s := states[i];
      && s.active == |s.inflight| && s.active <= s.workers
      && (!Leaving(s.pc) ==> s.pending.Keys == (set k | k in s.waiting) + s.inflight)
      && (!Leaving(s.pc) ==> (set k | k in s.waiting) !! s.inflight)
      && (forall k :: k in s.pending ==> s.pending[k] != [])
      && (!s.cancelled && s.pc.Select? ==> s.active == s.workers || s.waiting == [])
  {
    RunSafe(states, steps, i);
  }

  // ---------------------------------------------------------------- nothing is dropped without a reason

  function IdsOf(items: seq<Item>): seq<nat> {
    seq(|items|, i requires 0 <= i < |items| => items[i].id)
  }

  /** While nothing was cancelled and no preparation failed, dropped means written. */
  predicate AllWritten(s: State) {
    s.dropped == IdsOf(s.written) && (s.pc.Flush? ==> s.pc.ok)
  }

  predicate Fails(step: Step) {
    step.TakeReady? && !step.ok
  }

  lemma WrittenWhole(s: State, step: Step)
    requires AllWritten(s) && Enabled(s, step) && !Fails(step) && !Next(s, step).cancelled
    requires !step.SendFull? && !step.SendLate? && s.closeHand.None? && !Leaving(s.pc)
    ensures AllWritten(Next(s, step))
  {
    var u := Next(s, step);
    if u.written != s.written {
      assert IdsOf(u.written) == IdsOf(s.written) + [u.written[|s.written|].id];
    }
  }

  lemma OpenSteps(s: State, step: Step)
    requires Safe(s) && Enabled(s, step) && !Next(s, step).cancelled
    ensures !s.cancelled && !step.SendFull? && !step.SendLate? && s.closeHand.None? && !Leaving(s.pc)
  {
    assert !s.cancelled;
    if step.SendFull? {
      RoomForHeld(s, step.id);
    }
  }

  /** In every run in which nobody has closed the sender and no preparation has failed, the packets
      dropped are exactly those written, in the same order. */
  lemma {:induction false} DroppedMeansWritten(states: seq<State>, steps: seq<Step>, i: nat)
    requires IsRun(states, steps) && i < |states| && !states[i].cancelled
    requires forall k :: 0 <= k < i ==> !Fails(steps[k])
    ensures AllWritten(states[i])
  {
    if i > 0 {
      RunSafe(states, steps, i - 1);
      OpenSteps(states[i - 1], steps[i - 1]);
      DroppedMeansWritten(states, steps, i - 1);
      WrittenWhole(states[i - 1], steps[i - 1]);
    }
  }

  /** Packets of one key are written in the order they entered the channel, and never
      before their key had a prepared target. */
  lemma WrittenInOrder(states: seq<State>, steps: seq<Step>, i: nat)
    requires IsRun(states, steps) && i < |states|
    ensures var w := states[i].written;
      && (forall p, q :: 0 <= p < q < |w| && w[p].key == w[q].key ==> w[p].no < w[q].no)
      && (forall p :: 0 <= p < |w| ==> w[p].key in states[i].prepared)
  {
    RunSafe(states, steps, i);
  }
}
