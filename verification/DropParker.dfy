/** The parker of dropped connections (tunnel/reject.go): a bounded queue of release callbacks,
    drained by one goroutine that is started when it is needed. A callback is named by its
    sequence number. Park, the two locked sections of the runner and the calls of the callbacks
    interleave freely; the clock never runs backwards. */
module DropParker {
  import opened NetTypes

  const CAPACITY := 4096

  datatype Drop = Drop(id: nat, deadline: nat)

  /** The fields under the mutex. */
  datatype Parker = Parker(queue: seq<Drop>, nextSeq: nat, running: bool)

  /** Where a runner goroutine is: before its first lock, asleep for a drop, or about to call it. */
  datatype Runner = Looking | Waiting(drop: Drop) | Releasing(drop: Drop)

  datatype Release = Release(drop: Drop, at: nat, byRunner: bool)

  /** `evicted` are callbacks that calls of Park have taken out but not called yet; `parked` and
      `log` remember everything that was parked and released. */
  datatype State = State(p: Parker, now: nat, runners: seq<Runner>, evicted: seq<Drop>,
                         parked: seq<Drop>, log: seq<Release>)

  datatype Step = Tick(dt: nat) | Park(ttl: nat) | Look(r: nat) | Wake(r: nat) | Call(r: nat) | CallEvicted(i: nat)

  // ---------------------------------------------------------------- the locked sections

  /** How many of the oldest must go before another fits. */
  function Excess(queue: seq<Drop>): (n: nat)
    ensures n <= |queue|
  {
    if |queue| < CAPACITY then 0 else |queue| - CAPACITY + 1
  }

  function Parked(p: Parker, deadline: nat): Parker {
    Parker(p.queue[Excess(p.queue)..] + [Drop(p.nextSeq + 1, deadline)], p.nextSeq + 1, true)
  }

  /** Either the head of the queue, or the runner stops. */
  function Looked(p: Parker): (Parker, Option<Drop>) {
    if p.queue == [] then (p.(running := false), None) else (p, Some(p.queue[0]))
  }

  predicate AtHead(p: Parker, d: Drop) {
    p.queue != [] && p.queue[0].id == d.id
  }

  function Popped(p: Parker, d: Drop): Parker {
    if AtHead(p, d) then p.(queue := p.queue[1..]) else p
  }

  // ---------------------------------------------------------------- the steps

  const START := State(Parker([], 0, false), 0, [], [], [], [])

  predicate Enabled(s: State, step: Step) {
    match step
    case Tick(_) | Park(_) => true
    case Look(r) => r < |s.runners| && s.runners[r].Looking?
    case Wake(r) => r < |s.runners| && s.runners[r].Waiting? && s.runners[r].drop.deadline <= s.now
    case Call(r) => r < |s.runners| && s.runners[r].Releasing?
    case CallEvicted(i) => i < |s.evicted|
  }

  function Next(s: State, step: Step): State
    requires Enabled(s, step)
  {
    match step
    case Tick(dt) => s.(now := s.now + dt)
    case Park(ttl) =>
      State(Parked(s.p, s.now + ttl), s.now, if s.p.running then s.runners else s.runners + [Looking],
            s.evicted + s.p.queue[..Excess(s.p.queue)], s.parked + [Drop(s.p.nextSeq + 1, s.now + ttl)], s.log)
    case Look(r) =>
      var (p, d) := Looked(s.p);
      s.(p := p, runners := match d case None => s.runners[..r] + s.runners[r + 1..]
                                    case Some(d) => s.runners[r := Waiting(d)])
    case Wake(r) =>
      var d := s.runners[r].drop;
      s.(p := Popped(s.p, d), runners := s.runners[r := if AtHead(s.p, d) then Releasing(d) else Looking])
    case Call(r) => s.(runners := s.runners[r := Looking], log := s.log + [Release(s.runners[r].drop, s.now, true)])
    case CallEvicted(i) =>
      s.(evicted := s.evicted[..i] + s.evicted[i + 1..], log := s.log + [Release(s.evicted[i], s.now, false)])
  }

  predicate Runs(s: State, steps: seq<Step>)
    decreases |steps|
  {
    steps == [] || (Enabled(s, steps[0]) && Runs(Next(s, steps[0]), steps[1..]))
  }

  function After(s: State, steps: seq<Step>): State
    requires Runs(s, steps)
    decreases |steps|
  {
    if steps == [] then s else After(Next(s, steps[0]), steps[1..])
  }

  // ---------------------------------------------------------------- the invariant

  function Gone(s: State): int { |s.parked| - |s.p.queue| }

  /** The queue holds the latest drops, in the order they were parked. */
  predicate Fifo(s: State) {
    && 0 <= Gone(s) && s.p.queue == s.parked[Gone(s)..] && |s.p.queue| <= CAPACITY
    && s.p.nextSeq == |s.parked| && forall i :: 0 <= i < |s.parked| ==> s.parked[i].id == i + 1
  }

  /** One runner while there is anything to release, none otherwise running. */
  predicate OneRunner(s: State) {
    && |s.runners| == (if s.p.running then 1 else 0)
    && (s.p.queue != [] ==> s.p.running)
  }

  /** A drop that has left the queue. */
  predicate Left(s: State, d: Drop) {
    1 <= d.id <= Gone(s) <= |s.parked| && s.parked[d.id - 1] == d
  }

  predicate RunnerOk(s: State, r: Runner) {
    match r
    case Looking => true
    case Waiting(d) => 1 <= d.id <= |s.parked| && d.id <= Gone(s) + 1 && s.parked[d.id - 1] == d
    case Releasing(d) => Left(s, d) && d.deadline <= s.now
  }

  function Held(rs: seq<Runner>): multiset<Drop> {
    if rs == [] then multiset{}
    else Held(rs[..|rs| - 1]) + if rs[|rs| - 1].Releasing? then multiset{rs[|rs| - 1].drop} else multiset{}
  }

  function Drops(log: seq<Release>): seq<Drop> {
    seq(|log|, i requires 0 <= i < |log| => log[i].drop)
  }

  /** Whatever left the queue is about to be called, or has been, exactly once. */
  predicate Custody(s: State) {
    0 <= Gone(s) && Balanced(s.parked[..Gone(s)], s.evicted, Held(s.runners), Drops(s.log))
  }

  predicate Balanced(gone: seq<Drop>, evicted: seq<Drop>, held: multiset<Drop>, called: seq<Drop>) {
    multiset(gone) == multiset(evicted) + held + multiset(called)
  }

  predicate Forced(s: State, d: Drop) {
    d.id + CAPACITY <= |s.parked|
  }

  /** The runner calls nothing early; only a drop with 4096 newer ones is evicted. */
  predicate Punctual(s: State) {
    && (forall i :: 0 <= i < |s.evicted| ==> Forced(s, s.evicted[i]))
    && (forall i :: 0 <= i < |s.log| ==>
          if s.log[i].byRunner then s.log[i].drop.deadline <= s.log[i].at else Forced(s, s.log[i].drop))
  }

  predicate Inv(s: State) {
    && Fifo(s) && OneRunner(s) && Custody(s) && Punctual(s)
    && forall r :: 0 <= r < |s.runners| ==> RunnerOk(s, s.runners[r])
  }

  /** What the runner has called comes from the front, in order; what it is about to call comes next. */
  predicate Ordered(s: State) {
    && (forall i, j :: 0 <= i < j < |s.log| && s.log[i].byRunner && s.log[j].byRunner ==>
          s.log[i].drop.id < s.log[j].drop.id)
    && (forall i :: 0 <= i < |s.log| && s.log[i].byRunner ==> s.log[i].drop.id <= Gone(s))
    && (forall i, r :: 0 <= i < |s.log| && s.log[i].byRunner && 0 <= r < |s.runners| && s.runners[r].Releasing? ==>
          s.log[i].drop.id < s.runners[r].drop.id)
  }

  lemma ShapePark(s: State, step: Step)
    requires Inv(s) && step.Park?
    ensures Fifo(Next(s, step)) && OneRunner(Next(s, step))
  {
    var u := Next(s, step);
    assert u.p.queue == u.parked[Gone(u)..];
  }

  lemma ShapeWake(s: State, step: Step)
    requires Inv(s) && Enabled(s, step) && step.Wake?
    ensures Fifo(Next(s, step)) && OneRunner(Next(s, step))
  {
    var u := Next(s, step);
    assert u.p.queue == u.parked[Gone(u)..];
  }

  lemma ShapeKept(s: State, step: Step)
    requires Inv(s) && Enabled(s, step)
    ensures Fifo(Next(s, step)) && OneRunner(Next(s, step))
  {
    match step
    case Park(_) => ShapePark(s, step);
    case Wake(_) => ShapeWake(s, step);
    case _ =>
  }

  /** What leaves the queue grows, and what is parked stays parked. */
  lemma Onward(s: State, step: Step)
    requires Inv(s) && Enabled(s, step)
    ensures var u := Next(s, step); Gone(s) <= Gone(u) && s.parked <= u.parked && s.now <= u.now
  {
  }

  lemma RunnerStays(s: State, u: State, r: Runner)
    requires Gone(s) <= Gone(u) && s.parked <= u.parked && s.now <= u.now
    requires RunnerOk(s, r) && 0 <= Gone(u) <= |u.parked|
    ensures RunnerOk(u, r)
  {
  }

  lemma RunnersKept(s: State, step: Step)
    requires Inv(s) && Enabled(s, step)
    ensures var u := Next(s, step); forall r :: 0 <= r < |u.runners| ==> RunnerOk(u, u.runners[r])
  {
    match step
    case Look(_) => RunnerLooks(s, step);
    case Wake(_) => RunnerWakes(s, step);
    case _ => OthersStay(s, step);
  }

  lemma OthersStay(s: State, step: Step)
    requires Inv(s) && Enabled(s, step) && !step.Look? && !step.Wake?
    ensures var u := Next(s, step); forall r :: 0 <= r < |u.runners| ==> RunnerOk(u, u.runners[r])
  {
    ShapeKept(s, step);
    Onward(s, step);
    var u := Next(s, step);
    forall r | 0 <= r < |u.runners| ensures RunnerOk(u, u.runners[r]) {
      if r < |s.runners| && u.runners[r] == s.runners[r] {
        RunnerStays(s, u, s.runners[r]);
      }
    }
  }

  lemma RunnerLooks(s: State, step: Step)
    requires Inv(s) && Enabled(s, step) && step.Look?
    ensures var u := Next(s, step); forall r :: 0 <= r < |u.runners| ==> RunnerOk(u, u.runners[r])
  {
    if s.p.queue != [] {
      assert s.p.queue[0] == s.parked[Gone(s)];
    }
  }

  lemma RunnerWakes(s: State, step: Step)
    requires Inv(s) && Enabled(s, step) && step.Wake?
    ensures var u := Next(s, step); forall r :: 0 <= r < |u.runners| ==> RunnerOk(u, u.runners[r])
  {
    ShapeWake(s, step);
    assert RunnerOk(s, s.runners[0]);
    if s.p.queue != [] {
      assert s.p.queue[0] == s.parked[Gone(s)];
    }
  }

  lemma OrderedKept(s: State, step: Step)
    requires Inv(s) && Ordered(s) && Enabled(s, step)
    ensures Ordered(Next(s, step))
  {
    match step
    case Wake(_) => OrderedWake(s, step);
    case Call(_) => OrderedCall(s, step);
    case CallEvicted(i) => OrderedEvicted(s, step);
    case _ => OrderedSame(s, step);
  }

  /** Nothing is called, and nobody gets something to call. */
  lemma OrderedSame(s: State, step: Step)
    requires Inv(s) && Ordered(s) && Enabled(s, step) && (step.Tick? || step.Park? || step.Look?)
    ensures Ordered(Next(s, step))
  {
    Onward(s, step);
    var u := Next(s, step);
    assert u.log == s.log;
    forall r | 0 <= r < |u.runners| && u.runners[r].Releasing? ensures r < |s.runners| && u.runners[r] == s.runners[r] {
    }
  }

  /** What is evicted is not called by the runner. */
  lemma OrderedEvicted(s: State, step: Step)
    requires Ordered(s) && Enabled(s, step) && step.CallEvicted?
    ensures Ordered(Next(s, step))
  {
    var u := Next(s, step);
    assert u.runners == s.runners && Gone(u) == Gone(s) && !u.log[|s.log|].byRunner;
    assert forall i :: 0 <= i < |s.log| ==> u.log[i] == s.log[i];
  }

  lemma OrderedWake(s: State, step: Step)
    requires Inv(s) && Ordered(s) && Enabled(s, step) && step.Wake?
    ensures Ordered(Next(s, step))
  {
    Onward(s, step);
    if s.p.queue != [] {
      assert s.p.queue[0] == s.parked[Gone(s)];
    }
  }

  lemma OrderedCall(s: State, step: Step)
    requires Inv(s) && Ordered(s) && Enabled(s, step) && step.Call?
    ensures Ordered(Next(s, step))
  {
    assert RunnerOk(s, s.runners[0]);
  }

  lemma PunctualKept(s: State, step: Step)
    requires Inv(s) && Enabled(s, step)
    ensures Punctual(Next(s, step))
  {
  }

  lemma HeldBySingle(rs: seq<Runner>)
    requires |rs| == 1
    ensures Held(rs) == if rs[0].Releasing? then multiset{rs[0].drop} else multiset{}
  {
    assert rs[..0] == [];
  }

  lemma DropsMore(log: seq<Release>, r: Release)
    ensures Drops(log + [r]) == Drops(log) + [r.drop]
  {
  }

  lemma MultisetMore(a: seq<Drop>, b: seq<Drop>)
    ensures multiset(a + b) == multiset(a) + multiset(b)
  {
  }

  lemma BalancedOut(gone: seq<Drop>, evicted: seq<Drop>, held: multiset<Drop>, called: seq<Drop>, out: seq<Drop>)
    requires Balanced(gone, evicted, held, called)
    ensures Balanced(gone + out, evicted + out, held, called)
  {
    MultisetMore(gone, out);
    MultisetMore(evicted, out);
  }

  lemma BalancedHeld(gone: seq<Drop>, evicted: seq<Drop>, called: seq<Drop>, d: Drop)
    requires Balanced(gone, evicted, multiset{}, called)
    ensures Balanced(gone + [d], evicted, multiset{d}, called)
  {
    MultisetMore(gone, [d]);
  }

  lemma BalancedCalled(gone: seq<Drop>, evicted: seq<Drop>, called: seq<Drop>, d: Drop)
    requires Balanced(gone, evicted, multiset{d}, called)
    ensures Balanced(gone, evicted, multiset{}, called + [d])
  {
    MultisetMore(called, [d]);
  }

  lemma MultisetWithout(evicted: seq<Drop>, i: nat)
    requires i < |evicted|
    ensures multiset(evicted[..i] + evicted[i + 1..]) + multiset{evicted[i]} == multiset(evicted)
  {
    assert evicted == evicted[..i] + [evicted[i]] + evicted[i + 1..];
  }

  lemma BalancedEvicted(gone: seq<Drop>, evicted: seq<Drop>, held: multiset<Drop>, called: seq<Drop>, i: nat)
    requires Balanced(gone, evicted, held, called) && i < |evicted|
    ensures Balanced(gone, evicted[..i] + evicted[i + 1..], held, called + [evicted[i]])
  {
    MultisetMore(called, [evicted[i]]);
    MultisetWithout(evicted, i);
  }

  lemma HeldByIdle(rs: seq<Runner>)
    requires |rs| <= 1 && forall i :: 0 <= i < |rs| ==> !rs[i].Releasing?
    ensures Held(rs) == multiset{}
  {
    if rs != [] {
      HeldBySingle(rs);
    }
  }

  lemma CustodyPark(s: State, step: Step)
    requires Fifo(s) && Custody(s) && OneRunner(s) && step.Park?
    ensures Custody(Next(s, step))
  {
    var u := Next(s, step);
    var out := s.p.queue[..Excess(s.p.queue)];
    assert u.parked[..Gone(u)] == s.parked[..Gone(s)] + out;
    if !s.p.running {
      HeldByIdle(s.runners);
      HeldByIdle(u.runners);
    }
    BalancedOut(s.parked[..Gone(s)], s.evicted, Held(s.runners), Drops(s.log), out);
  }

  lemma CustodyLook(s: State, step: Step)
    requires Custody(s) && OneRunner(s) && step.Look? && Enabled(s, step)
    ensures Custody(Next(s, step))
  {
    HeldByIdle(s.runners);
    HeldByIdle(Next(s, step).runners);
  }

  lemma CustodyWake(s: State, step: Step)
    requires Fifo(s) && OneRunner(s) && Custody(s) && step.Wake? && Enabled(s, step)
    requires forall r :: 0 <= r < |s.runners| ==> RunnerOk(s, s.runners[r])
    ensures Custody(Next(s, step))
  {
    HeldByIdle(s.runners);
    var u := Next(s, step);
    var d := s.runners[0].drop;
    assert RunnerOk(s, s.runners[0]);
    if AtHead(s.p, d) {
      HeldBySingle(u.runners);
      assert s.p.queue[0] == s.parked[Gone(s)];
      assert u.parked[..Gone(u)] == s.parked[..Gone(s)] + [d];
      BalancedHeld(s.parked[..Gone(s)], s.evicted, Drops(s.log), d);
    } else {
      HeldByIdle(u.runners);
    }
  }

  lemma CustodyCall(s: State, step: Step)
    requires Custody(s) && OneRunner(s) && step.Call? && Enabled(s, step)
    ensures Custody(Next(s, step))
  {
    var d := s.runners[0].drop;
    HeldBySingle(s.runners);
    HeldByIdle(Next(s, step).runners);
    DropsMore(s.log, Release(d, s.now, true));
    BalancedCalled(s.parked[..Gone(s)], s.evicted, Drops(s.log), d);
  }

  lemma CustodyEvicted(s: State, step: Step)
    requires Custody(s) && step.CallEvicted? && Enabled(s, step)
    ensures Custody(Next(s, step))
  {
    var u, i := Next(s, step), step.i;
    assert u.parked[..Gone(u)] == s.parked[..Gone(s)] && u.evicted == s.evicted[..i] + s.evicted[i + 1..];
    DropsMore(s.log, Release(s.evicted[i], s.now, false));
    BalancedEvicted(s.parked[..Gone(s)], s.evicted, Held(s.runners), Drops(s.log), step.i);
  }

  lemma CustodyKept(s: State, step: Step)
    requires Inv(s) && Enabled(s, step)
    ensures Custody(Next(s, step))
  {
    match step
    case Tick(_) =>
    case Park(_) => CustodyPark(s, step);
    case Look(_) => CustodyLook(s, step);
    case Wake(_) => CustodyWake(s, step);
    case Call(_) => CustodyCall(s, step);
    case CallEvicted(_) => CustodyEvicted(s, step);
  }

  lemma InvKept(s: State, step: Step)
    requires Inv(s) && Enabled(s, step)
    ensures Inv(Next(s, step))
  {
    ShapeKept(s, step);
    RunnersKept(s, step);
    CustodyKept(s, step);
    PunctualKept(s, step);
  }

  lemma {:induction false} RunKeeps(s: State, steps: seq<Step>)
    requires Inv(s) && Ordered(s) && Runs(s, steps)
    ensures Inv(After(s, steps)) && Ordered(After(s, steps))
    decreases |steps|
  {
    if steps != [] {
      InvKept(s, steps[0]);
      OrderedKept(s, steps[0]);
      RunKeeps(Next(s, steps[0]), steps[1..]);
    }
  }

  lemma RunInv(steps: seq<Step>)
    requires Runs(START, steps)
    ensures Inv(After(START, steps)) && Ordered(After(START, steps))
  {
    StartInv();
    RunKeeps(START, steps);
  }

  lemma StartInv()
    ensures Inv(START) && Ordered(START)
  {
    assert Drops([]) == [];
  }

  // ---------------------------------------------------------------- what holds of every run

  /** Every parked callback is queued, about to be called, or called; none is called twice. */
  lemma NoneLostNoneTwice(steps: seq<Step>)
    requires Runs(START, steps)
    ensures var s := After(START, steps);
      && multiset(s.parked) == multiset(s.p.queue) + multiset(s.evicted) + Held(s.runners) + multiset(Drops(s.log))
      && (forall d :: d in s.parked ==> multiset(s.parked)[d] == 1)
      && forall i, j :: 0 <= i < j < |s.log| ==> s.log[i].drop != s.log[j].drop
  {
    RunInv(steps);
    var s := After(START, steps);
    AllAccounted(s);
    AllOnce(s.parked, multiset(s.p.queue) + multiset(s.evicted) + Held(s.runners), Drops(s.log));
    forall i, j | 0 <= i < j < |s.log| ensures s.log[i].drop != s.log[j].drop {
      assert Drops(s.log)[i] != Drops(s.log)[j];
    }
  }

  lemma AllOnce(parked: seq<Drop>, others: multiset<Drop>, called: seq<Drop>)
    requires forall i :: 0 <= i < |parked| ==> parked[i].id == i + 1
    requires multiset(parked) == others + multiset(called)
    ensures forall d :: d in parked ==> multiset(parked)[d] == 1
    ensures forall i, j :: 0 <= i < j < |called| ==> called[i] != called[j]
  {
    forall d | d in parked ensures multiset(parked)[d] == 1 {
      ParkedOnce(parked, d);
    }
    forall i, j | 0 <= i < j < |called| ensures called[i] != called[j] {
      CalledApart(parked, others, called, i, j);
    }
  }

  lemma AllAccounted(s: State)
    requires Fifo(s) && Custody(s)
    ensures multiset(s.parked) == multiset(s.p.queue) + multiset(s.evicted) + Held(s.runners) + multiset(Drops(s.log))
  {
    var n := Gone(s);
    assert s.parked == s.parked[..n] + s.parked[n..];
    MultisetMore(s.parked[..n], s.parked[n..]);
  }

  lemma CalledApart(parked: seq<Drop>, others: multiset<Drop>, called: seq<Drop>, i: nat, j: nat)
    requires multiset(parked) == others + multiset(called) && i < j < |called|
    requires forall d :: d in parked ==> multiset(parked)[d] == 1
    ensures called[i] != called[j]
  {
    assert called[i] in multiset(called);
    assert called[i] in multiset(parked);
    if called[i] == called[j] {
      TwiceIn(called, i, j);
    }
  }

  lemma {:induction false} ParkedOnce(parked: seq<Drop>, d: Drop)
    requires d in parked && forall i :: 0 <= i < |parked| ==> parked[i].id == i + 1
    ensures multiset(parked)[d] == 1
  {
    var i := d.id - 1;
    assert parked == parked[..i] + [d] + parked[i + 1..];
    assert d !in parked[..i] && d !in parked[i + 1..];
  }

  lemma TwiceIn(ds: seq<Drop>, i: nat, j: nat)
    requires i < j < |ds| && ds[i] == ds[j]
    ensures multiset(ds)[ds[i]] >= 2
  {
    assert ds == ds[..i] + [ds[i]] + ds[i + 1..j] + [ds[j]] + ds[j + 1..];
  }

  /** The queue stays within 4096 with rising numbers, and one runner serves it whenever it holds
      anything; there is never a second. */
  lemma BoundedAndServed(steps: seq<Step>)
    requires Runs(START, steps)
    ensures var s := After(START, steps);
      && |s.p.queue| <= CAPACITY
      && (forall i, j :: 0 <= i < j < |s.p.queue| ==> s.p.queue[i].id < s.p.queue[j].id <= s.p.nextSeq)
      && |s.runners| <= 1 && (s.p.queue != [] ==> |s.runners| == 1 && s.p.running)
  {
    RunInv(steps);
  }

  /** The runner releases nothing before its deadline and in the order of parking; anything
      released otherwise had 4096 newer ones behind it. */
  lemma NeverEarly(steps: seq<Step>)
    requires Runs(START, steps)
    ensures var s := After(START, steps);
      && (forall i :: 0 <= i < |s.log| && s.log[i].byRunner ==> s.log[i].drop.deadline <= s.log[i].at)
      && (forall i :: 0 <= i < |s.log| && !s.log[i].byRunner ==> s.log[i].drop.id + CAPACITY <= s.p.nextSeq)
      && (forall i, j :: 0 <= i < j < |s.log| && s.log[i].byRunner && s.log[j].byRunner ==>
            s.log[i].drop.id < s.log[j].drop.id)
  {
    RunInv(steps);
    var s := After(START, steps);
    forall i | 0 <= i < |s.log| && !s.log[i].byRunner ensures s.log[i].drop.id + CAPACITY <= s.p.nextSeq {
      assert Forced(s, s.log[i].drop);
    }
  }

  // ---------------------------------------------------------------- what is parked and released

  /** The time after some steps that began at `now`. */
  function Clock(now: nat, steps: seq<Step>): nat
    decreases |steps|
  {
    if steps == [] then now else Clock(if steps[0].Tick? then now + steps[0].dt else now, steps[1..])
  }

  /** What calls of Park ask for: numbered in order, each to be released its lifetime after the call. */
  function Asked(now: nat, before: nat, steps: seq<Step>): seq<Drop>
    decreases |steps|
  {
    if steps == [] then []
    else match steps[0]
         case Park(ttl) => [Drop(before + 1, now + ttl)] + Asked(now, before + 1, steps[1..])
         case Tick(dt) => Asked(now + dt, before, steps[1..])
         case _ => Asked(now, before, steps[1..])
  }

  lemma {:induction false} ParkedAsAsked(s: State, steps: seq<Step>)
    requires Runs(s, steps) && s.p.nextSeq == |s.parked|
    ensures var u := After(s, steps);
      u.parked == s.parked + Asked(s.now, |s.parked|, steps) && u.now == Clock(s.now, steps)
    decreases |steps|
  {
    if steps != [] {
      var u := Next(s, steps[0]);
      ParkedAsAsked(u, steps[1..]);
      if steps[0].Park? {
        assert u.parked + Asked(u.now, |u.parked|, steps[1..]) == s.parked + Asked(s.now, |s.parked|, steps);
      }
    }
  }

  /** In every run, what was parked is what the calls of Park asked for. */
  lemma ParkedIs(steps: seq<Step>)
    requires Runs(START, steps)
    ensures After(START, steps).parked == Asked(0, 0, steps)
  {
    ParkedAsAsked(START, steps);
  }

  /** In every run, the runner takes up the oldest drop, wakes for it when it is due and calls it: three
      steps of the runner release it then and there, whoever else is queued. */
  lemma DueHeadIsReleased(steps: seq<Step>)
    requires Runs(START, steps)
    requires var s := After(START, steps); s.p.queue != [] && s.runners == [Looking] && s.p.queue[0].deadline <= s.now
    ensures var s := After(START, steps);
      && Runs(s, [Look(0), Wake(0), Call(0)])
      && var u := After(s, [Look(0), Wake(0), Call(0)]);
      && u.log == s.log + [Release(s.p.queue[0], s.now, true)] && u.p.queue == s.p.queue[1..]
      && u.runners == [Looking] && u.p.running == s.p.running && u.evicted == s.evicted && u.parked == s.parked
  {
    var s := After(START, steps);
    var a := Next(s, Look(0));
    assert a.runners == [Waiting(s.p.queue[0])] && a.p == s.p;
    var b := Next(a, Wake(0));
    assert b.runners == [Releasing(s.p.queue[0])] && b.p.queue == s.p.queue[1..];
    var u := Next(b, Call(0));
    assert [Look(0), Wake(0), Call(0)][1..] == [Wake(0), Call(0)] && [Wake(0), Call(0)][1..] == [Call(0)];
    assert [Call(0)][1..] == [];
    assert After(u, []) == u;
    assert After(b, [Call(0)]) == u;
    assert After(a, [Wake(0), Call(0)]) == u;
  }

  // ---------------------------------------------------------------- equal lifetimes

  predicate SameTtl(steps: seq<Step>, ttl: nat) {
    forall i :: 0 <= i < |steps| && steps[i].Park? ==> steps[i].ttl == ttl
  }

  predicate DeadlinesRise(s: State, ttl: nat) {
    && (forall i, j :: 0 <= i < j < |s.parked| ==> s.parked[i].deadline <= s.parked[j].deadline)
    && (forall i :: 0 <= i < |s.parked| ==> s.parked[i].deadline <= s.now + ttl)
  }

  lemma {:induction false} RunDeadlines(s: State, steps: seq<Step>, ttl: nat)
    requires DeadlinesRise(s, ttl) && Runs(s, steps) && SameTtl(steps, ttl)
    ensures DeadlinesRise(After(s, steps), ttl)
    decreases |steps|
  {
    if steps != [] {
      assert forall i :: 0 <= i < |steps[1..]| ==> steps[1..][i] == steps[i + 1];
      RunDeadlines(Next(s, steps[0]), steps[1..], ttl);
    }
  }

  /** With one lifetime for all, the queue is ordered by deadline, so nothing behind the head is
      due before it. */
  lemma QueueInDeadlineOrder(steps: seq<Step>, ttl: nat)
    requires Runs(START, steps) && SameTtl(steps, ttl)
    ensures var q := After(START, steps).p.queue;
      forall i, j :: 0 <= i < j < |q| ==> q[i].deadline <= q[j].deadline
  {
    RunInv(steps);
    RunDeadlines(START, steps, ttl);
  }

  // ---------------------------------------------------------------- the methods

  class ParkerQueue {
    var queue: seq<Drop>
    var nextSeq: nat
    var running: bool

    ghost function Value(): Parker
      reads this
    {
      Parker(queue, nextSeq, running)
    }

    constructor ()
      ensures Value() == START.p
    {
      queue, nextSeq, running := [], 0, false;
    }

    /** The locked part of Park: evicts the oldest, queues the new one and says whether a runner
        must be started. */
    method Park(deadline: nat) returns (evicted: seq<Drop>, start: bool)
      modifies this
      ensures Value() == Parked(old(Value()), deadline)
      ensures evicted == old(queue)[..Excess(old(queue))]
      ensures start == !old(running)
    {
      evicted, start := [], false;
      ghost var k := 0;
      while |queue| >= CAPACITY
        invariant k <= Excess(old(queue)) && queue == old(queue)[k..] && evicted == old(queue)[..k]
        invariant nextSeq == old(nextSeq) && running == old(running)
        decreases |queue|
      {
        evicted := evicted + [queue[0]];
        queue := queue[1..];
        k := k + 1;
      }
      nextSeq := nextSeq + 1;
      queue := queue + [Drop(nextSeq, deadline)];
      if !running {
        running, start := true, true;
      }
    }

    /** The runner's first locked section. */
    method Look() returns (drop: Option<Drop>)
      modifies this
      ensures (Value(), drop) == Looked(old(Value()))
    {
      if |queue| == 0 {
        running := false;
        queue := [];
        return None;
      }
      return Some(queue[0]);
    }

    /** The runner's second locked section: takes the drop out unless Park has evicted it. */
    method Pop(drop: Drop) returns (released: bool)
      modifies this
      ensures Value() == Popped(old(Value()), drop) && released == AtHead(old(Value()), drop)
    {
      released := |queue| > 0 && queue[0].id == drop.id;
      if released {
        queue := queue[1..];
      }
    }
  }
}
