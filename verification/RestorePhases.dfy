/**
 `RestoreReadFrom` for an IP reply in its two locked phases, with any number of restores in
 flight and mapping calls in between: every such history has an atomic one with the same
 maps and the same answers.
 */
module RestorePhases {
  import opened NetTypes
  import opened UdpMapping
  import opened UdpMappingRuns
  import opened MappingHistory

  /** What takes the mutex, in the order it does. A restore is named by an id. */
  datatype Event =
    | Called(origin: Metadata, m: Metadata)
    | ReadPhase(id: nat, source: Addr, port: nat)
    | WritePhase(id: nat)

  datatype Pending = Pending(source: Addr, port: nat)

  /** The maps, the restores between their two phases, and the answers returned. */
  datatype State = State(maps: Maps, waiting: map<nat, Pending>, answers: map<nat, Addr>)

  const START := State(NO_MAPS, map[], map[])

  /** A restore reads once, and writes only after a read that could not answer. */
  predicate Enabled(s: State, e: Event) {
    match e
    case Called(_, _) => true
    case ReadPhase(id, _, _) => id !in s.waiting && id !in s.answers
    case WritePhase(id) => id in s.waiting
  }

  ghost function Next(s: State, e: Event): State
    requires Enabled(s, e)
  {
    match e
    case Called(origin, m) => s.(maps := AddMapping(s.maps, origin, m))
    case ReadPhase(id, source, port) =>
      (match Peek(s.maps, source, port)
       case Some(answer) => s.(answers := s.answers[id := answer])
       case None => s.(waiting := s.waiting[id := Pending(source, port)]))
    case WritePhase(id) =>
      var (maps, answer) := Restore(s.maps, s.waiting[id].source, s.waiting[id].port);
      State(maps, s.waiting - {id}, s.answers[id := answer])
  }

  ghost predicate Happens(events: seq<Event>)
    decreases |events|, 0
  {
    events == [] || (Happens(events[..|events| - 1]) && Enabled(After(events[..|events| - 1]), events[|events| - 1]))
  }

  ghost function After(events: seq<Event>): State
    requires Happens(events)
    decreases |events|, 1
  {
    if events == [] then START else Next(After(events[..|events| - 1]), events[|events| - 1])
  }

  // ---------------------------------------------------------------- atomic histories

  /** A mapping call, or a whole restore in one step. */
  datatype Atomic = Mapping(origin: Metadata, m: Metadata) | Restoring(id: nat, source: Addr, port: nat)

  function OpOf(a: Atomic): Op {
    match a
    case Mapping(origin, m) => Map(origin, m)
    case Restoring(_, source, port) => RestoreFrom(source, port)
  }

  function Ops(h: seq<Atomic>): seq<Op> {
    seq(|h|, i requires 0 <= i < |h| => OpOf(h[i]))
  }

  /** The answers of an atomic history, each the one its past calls for. */
  function Answers(h: seq<Atomic>): map<nat, Addr> {
    if h == [] then map[]
    else
      var front := h[..|h| - 1];
      match h[|h| - 1]
      case Mapping(_, _) => Answers(front)
      case Restoring(id, source, port) => Answers(front)[id := AnswerFor(Ops(front), source, port)]
  }

  predicate OnceEach(h: seq<Atomic>) {
    forall i, j :: 0 <= i < j < |h| && h[i].Restoring? && h[j].Restoring? ==> h[i].id != h[j].id
  }

  function Mappings(h: seq<Atomic>): seq<Atomic> {
    if h == [] then []
    else Mappings(h[..|h| - 1]) + if h[|h| - 1].Mapping? then [h[|h| - 1]] else []
  }

  function Calls(events: seq<Event>): seq<Atomic> {
    if events == [] then []
    else Calls(events[..|events| - 1]) +
         match events[|events| - 1] case Called(origin, m) => [Mapping(origin, m)] case _ => []
  }

  /** An atomic history that cannot be told from the events: the same maps, the same answers, the
      same mapping calls in the same order, and one step for each restore that was answered,
      about what that restore asked. */
  ghost predicate Explains(h: seq<Atomic>, events: seq<Event>)
    requires Happens(events)
  {
    && Run(Ops(h)) == After(events).maps
    && Answers(h) == After(events).answers
    && Mappings(h) == Calls(events)
    && OnceEach(h)
    && AllAsked(h, events)
  }

  predicate AllAsked(h: seq<Atomic>, events: seq<Event>) {
    forall i :: 0 <= i < |h| && h[i].Restoring? ==> ReadPhase(h[i].id, h[i].source, h[i].port) in events
  }

  // ---------------------------------------------------------------- the atomic history

  /** Where an event takes effect: a read phase that answers, and every write phase. */
  ghost function EffectOf(s: State, e: Event): seq<Atomic>
    requires Enabled(s, e)
  {
    match e
    case Called(origin, m) => [Mapping(origin, m)]
    case ReadPhase(id, source, port) => if Peek(s.maps, source, port).Some? then [Restoring(id, source, port)] else []
    case WritePhase(id) => [Restoring(id, s.waiting[id].source, s.waiting[id].port)]
  }

  ghost function Effects(events: seq<Event>): seq<Atomic>
    requires Happens(events)
  {
    if events == [] then []
    else
      var front := events[..|events| - 1];
      Effects(front) + EffectOf(After(front), events[|events| - 1])
  }

  /** A read phase that answers does so as a whole restore would, which then changes nothing. */
  lemma PeekIsRestore(s: Maps, source: Addr, port: nat)
    ensures Peek(s, source, port).Some? ==> Restore(s, source, port) == (s, Peek(s, source, port).value)
  {
  }

  lemma OpsMore(h: seq<Atomic>, a: Atomic)
    ensures Run(Ops(h + [a])) == Apply(Run(Ops(h)), OpOf(a))
  {
    assert Ops(h + [a]) == Ops(h) + [OpOf(a)];
    RunLast(Ops(h), OpOf(a));
  }

  lemma AnswersMore(h: seq<Atomic>, a: Atomic)
    ensures Answers(h + [a]) == match a
      case Mapping(_, _) => Answers(h)
      case Restoring(id, source, port) => Answers(h)[id := Restore(Run(Ops(h)), source, port).1]
    ensures Mappings(h + [a]) == Mappings(h) + if a.Mapping? then [a] else []
  {
    assert (h + [a])[..|h|] == h;
    if a.Restoring? {
      AnswersAreHistory(Ops(h), a.source, a.port);
    }
  }

  /** The restores of an atomic history are those it answers. */
  lemma {:induction false} AnsweredAre(h: seq<Atomic>, id: nat)
    ensures id in Answers(h) <==> exists i :: 0 <= i < |h| && h[i].Restoring? && h[i].id == id
  {
    if h != [] {
      var front := h[..|h| - 1];
      AnsweredAre(front, id);
      assert forall i :: 0 <= i < |front| ==> front[i] == h[i];
    }
  }

  lemma OnceMore(h: seq<Atomic>, a: Atomic)
    requires OnceEach(h) && (a.Restoring? ==> a.id !in Answers(h))
    ensures OnceEach(h + [a])
  {
    if a.Restoring? {
      AnsweredAre(h, a.id);
    }
  }

  /** Waiting and answered restores have begun, and none is both. */
  ghost predicate Begun(s: State, events: seq<Event>) {
    forall id :: id in s.waiting ==>
      id !in s.answers && ReadPhase(id, s.waiting[id].source, s.waiting[id].port) in events
  }

  lemma {:induction false} RunBegun(events: seq<Event>)
    requires Happens(events)
    ensures Begun(After(events), events)
  {
    if events != [] {
      var front, last := events[..|events| - 1], events[|events| - 1];
      RunBegun(front);
      assert last in events && forall e :: e in front ==> e in events;
    }
  }

  /** What a history explains of all events but the last. */
  ghost predicate ExplainsFront(h: seq<Atomic>, front: seq<Event>, e: Event, events: seq<Event>) {
    && Happens(front) && Happens(events) && Explains(h, front)
    && events != [] && front == events[..|events| - 1] && e == events[|events| - 1]
  }

  lemma AskedMore(h: seq<Atomic>, a: Atomic, front: seq<Event>, e: Event, events: seq<Event>)
    requires AllAsked(h, front) && events != [] && front == events[..|events| - 1] && e == events[|events| - 1]
    ensures AllAsked(h, events)
    ensures a.Mapping? || ReadPhase(a.id, a.source, a.port) in events ==> AllAsked(h + [a], events)
  {
    assert events == front + [e];
  }

  lemma CallExplained(h: seq<Atomic>, front: seq<Event>, e: Event, events: seq<Event>)
    requires ExplainsFront(h, front, e, events) && e.Called?
    ensures Explains(h + EffectOf(After(front), e), events)
  {
    var a := Mapping(e.origin, e.m);
    OpsMore(h, a);
    AnswersMore(h, a);
    OnceMore(h, a);
    AskedMore(h, a, front, e, events);
  }

  lemma ReadExplained(h: seq<Atomic>, front: seq<Event>, e: Event, events: seq<Event>)
    requires ExplainsFront(h, front, e, events) && e.ReadPhase?
    ensures Explains(h + EffectOf(After(front), e), events)
  {
    var s := After(front);
    var a := Restoring(e.id, e.source, e.port);
    AskedMore(h, a, front, e, events);
    if Peek(s.maps, e.source, e.port).Some? {
      PeekIsRestore(s.maps, e.source, e.port);
      OpsMore(h, a);
      AnswersMore(h, a);
      OnceMore(h, a);
    } else {
      assert h + [] == h;
    }
  }

  lemma WriteExplained(h: seq<Atomic>, front: seq<Event>, e: Event, events: seq<Event>)
    requires ExplainsFront(h, front, e, events) && e.WritePhase?
    ensures Explains(h + EffectOf(After(front), e), events)
  {
    RunBegun(front);
    var p := After(front).waiting[e.id];
    var a := Restoring(e.id, p.source, p.port);
    OpsMore(h, a);
    AnswersMore(h, a);
    OnceMore(h, a);
    assert events == front + [e];
    AskedMore(h, a, front, e, events);
  }

  lemma {:induction false} EffectsExplain(events: seq<Event>)
    requires Happens(events)
    ensures Explains(Effects(events), events)
  {
    if events != [] {
      var front, last := events[..|events| - 1], events[|events| - 1];
      EffectsExplain(front);
      LastExplained(Effects(front), front, last, events);
    }
  }

  lemma LastExplained(h: seq<Atomic>, front: seq<Event>, e: Event, events: seq<Event>)
    requires ExplainsFront(h, front, e, events)
    ensures Explains(h + EffectOf(After(front), e), events)
  {
    match e
    case Called(_, _) => CallExplained(h, front, e, events);
    case ReadPhase(_, _, _) => ReadExplained(h, front, e, events);
    case WritePhase(_) => WriteExplained(h, front, e, events);
  }

  lemma {:induction false} HappensBefore(events: seq<Event>, k: nat)
    requires Happens(events) && k <= |events|
    ensures Happens(events[..k]) && Effects(events[..k]) <= Effects(events)
    decreases |events|
  {
    if k == |events| {
      assert events[..k] == events;
    } else {
      var front := events[..|events| - 1];
      HappensBefore(front, k);
      assert front[..k] == events[..k];
    }
  }

  /** Some beginning of the atomic history explains the first k events. */
  ghost predicate ExplainsFirst(h: seq<Atomic>, events: seq<Event>, k: nat)
    requires k <= |events|
  {
    Happens(events[..k]) && exists n :: 0 <= n <= |h| && Explains(h[..n], events[..k])
  }

  ghost predicate ExplainsThroughout(h: seq<Atomic>, events: seq<Event>)
    requires Happens(events)
  {
    Explains(h, events) && forall k :: 0 <= k <= |events| ==> ExplainsFirst(h, events, k)
  }

  lemma FirstExplained(events: seq<Event>, k: nat)
    requires Happens(events) && k <= |events|
    ensures ExplainsFirst(Effects(events), events, k)
  {
    HappensBefore(events, k);
    EffectsExplain(events[..k]);
    var part := Effects(events[..k]);
    assert Effects(events)[..|part|] == part;
  }

  /** Every history of mapping calls and two-phase restores, with any number of restores in
      flight, is explained by an atomic history. At every moment the part of it that has taken
      effect explains what has happened so far, so a restore takes effect between its first phase
      and its answer, and calls that do not overlap keep their order. */
  lemma RestoresAreAtomic(events: seq<Event>)
    requires Happens(events)
    ensures exists h :: ExplainsThroughout(h, events)
  {
    EffectsExplain(events);
    forall k | 0 <= k <= |events| ensures ExplainsFirst(Effects(events), events, k) {
      FirstExplained(events, k);
    }
    assert ExplainsThroughout(Effects(events), events);
  }

  /** What holds of the maps after every atomic history holds after every history in phases. */
  lemma PhasesKeep(events: seq<Event>)
    requires Happens(events)
    ensures Inv(After(events).maps)
  {
    EffectsExplain(events);
    RunKeeps(Ops(Effects(events)));
  }
}
