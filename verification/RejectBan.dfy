/** The cache behind TCP reject bans (tunnel/reject_ban.go): ten rejections of one source and
    destination inside ten seconds ban that pair for one minute. Entries keep a ring of the last
    ten rejection times and expire lazily. Times are nanoseconds since the zero time, so 0 is
    the unset time. */
module RejectBan {
  import opened NetTypes

  const THRESHOLD := 10
  const WINDOW := 10_000_000_000
  const BAN := 60_000_000_000

  /** Compared only as a whole; `context` stands for the inbound routing fields. */
  datatype Key = Key(source: Addr, destination: Addr, host: string, port: nat, context: string)

  type Proxy = string

  type Ring = s: seq<nat> | |s| == THRESHOLD witness [0, 0, 0, 0, 0, 0, 0, 0, 0, 0]

  type Slot = n: nat | n < THRESHOLD

  datatype Entry = Entry(ring: Ring, next: Slot, count: nat, lastReject: nat, banUntil: nat, proxy: Option<Proxy>)

  datatype Cache = Cache(entries: map<Key, Entry>, generation: nat)

  datatype Op =
    | Lookup(key: Key, now: nat)
    | Reject(key: Key, gen: nat, proxy: Proxy, now: nat)
    | Forget(key: Key, gen: nat)
    | Reset
    | Evict(key: Key)

  datatype Answer = Found(proxy: Option<Proxy>, gen: nat) | Started(until: nat) | Quiet

  function Max(a: nat, b: nat): nat { if a < b then b else a }

  function EntryOf(c: Cache, k: Key): Option<Entry> {
    if k in c.entries then Some(c.entries[k]) else None
  }

  function NewEntry(): Entry {
    Entry([0, 0, 0, 0, 0, 0, 0, 0, 0, 0], 0, 0, 0, 0, None)
  }

  predicate Active(e: Entry, now: nat) {
    e.banUntil != 0 && now < e.banUntil
  }

  predicate Lapsed(e: Entry, now: nat) {
    if e.banUntil != 0 then e.banUntil <= now else now > e.lastReject + WINDOW
  }

  // ---------------------------------------------------------------- the cache, one entry at a time

  /** Records a rejection in an entry without an active ban. */
  function Count(e: Entry, p: Proxy, now: nat): Entry {
    var t := Max(now, e.lastReject);
    var ring := e.ring[e.next := t];
    var next := (e.next + 1) % THRESHOLD;
    var count := if e.count < THRESHOLD then e.count + 1 else e.count;
    var until := if count >= THRESHOLD && t <= ring[next] + WINDOW then t + BAN else 0;
    Entry(ring, next, count, t, until, if until == 0 then e.proxy else Some(p))
  }

  function AfterLookup(o: Option<Entry>, now: nat): Option<Entry> {
    if o.Some? && Lapsed(o.value, now) then None else o
  }

  function AfterReject(o: Option<Entry>, p: Proxy, now: nat): Option<Entry> {
    if o.Some? && Active(o.value, now) then o
    else
      Some(Count(if o.None? || Lapsed(o.value, now) then NewEntry() else o.value, p, now))
  }

  function Put(c: Cache, k: Key, o: Option<Entry>): Cache {
    match o
    case Some(e) => c.(entries := c.entries[k := e])
    case None => c.(entries := c.entries - {k})
  }

  function Next(c: Cache, op: Op): Cache {
    match op
    case Lookup(k, now) => Put(c, k, AfterLookup(EntryOf(c, k), now))
    case Reject(k, gen, p, now) => if gen != c.generation then c else Put(c, k, AfterReject(EntryOf(c, k), p, now))
    case Forget(k, gen) => if gen != c.generation then c else Put(c, k, None)
    case Reset => Cache(map[], c.generation + 1)
    case Evict(k) => Put(c, k, None)
  }

  /** A rejection reports the ban it starts, never one that was already running. */
  function Report(before: Option<Entry>, after: Option<Entry>, now: nat): Answer {
    if before.Some? && Active(before.value, now) then Quiet
    else if after.Some? && after.value.banUntil != 0 then Started(after.value.banUntil)
    else Quiet
  }

  function Says(c: Cache, op: Op): Answer {
    match op
    case Lookup(k, now) =>
      var o := EntryOf(c, k);
      Found(if o.Some? && Active(o.value, now) then o.value.proxy else None, c.generation)
    case Reject(k, gen, p, now) =>
      if gen != c.generation then Quiet else Report(EntryOf(c, k), AfterReject(EntryOf(c, k), p, now), now)
    case Forget(_, _) | Reset | Evict(_) => Quiet
  }

  function Answers(c: Cache, ops: seq<Op>): seq<Answer>
    decreases |ops|
  {
    if ops == [] then [] else [Says(c, ops[0])] + Answers(Next(c, ops[0]), ops[1..])
  }

  function Run(c: Cache, ops: seq<Op>): Cache
    decreases |ops|
  {
    if ops == [] then c else Run(Next(c, ops[0]), ops[1..])
  }

  const EMPTY := Cache(map[], 0)

  // ---------------------------------------------------------------- the reference: a full history

  /** What a key has been through: every rejection since its last ban, or that ban. */
  datatype Record = Counting(times: seq<nat>) | Banned(until: nat, proxy: Proxy)

  datatype Book = Book(records: map<Key, Record>, generation: nat)

  function RecordOf(b: Book, k: Key): Record {
    if k in b.records then b.records[k] else Counting([])
  }

  /** How many of the times lie in the window that ends now. */
  function InWindow(times: seq<nat>, now: nat): nat {
    if times == [] then 0
    else InWindow(times[..|times| - 1], now) + if now <= times[|times| - 1] + WINDOW then 1 else 0
  }

  function Last(times: seq<nat>): nat { if times == [] then 0 else times[|times| - 1] }

  /** One more rejection: the tenth inside the window starts a ban. */
  function Grown(times: seq<nat>, t: nat, p: Proxy): Record {
    if InWindow(times + [t], t) >= THRESHOLD then Banned(t + BAN, p) else Counting(times + [t])
  }

  /** The rejections that still count towards the next ban. */
  function Since(r: Record): seq<nat> { if r.Banned? then [] else r.times }

  function Rejected(r: Record, p: Proxy, now: nat): Record {
    if r.Banned? && now < r.until then r else Grown(Since(r), Max(now, Last(Since(r))), p)
  }

  function Turn(b: Book, op: Op): Book {
    match op
    case Lookup(_, _) => b
    case Reject(k, gen, p, now) =>
      if gen != b.generation then b else b.(records := b.records[k := Rejected(RecordOf(b, k), p, now)])
    case Forget(k, gen) => if gen != b.generation then b else b.(records := b.records[k := Counting([])])
    case Reset => Book(map[], b.generation + 1)
    case Evict(k) => b.(records := b.records[k := Counting([])])
  }

  function Word(before: Record, after: Record, now: nat): Answer {
    if before.Banned? && now < before.until then Quiet
    else if after.Banned? then Started(after.until)
    else Quiet
  }

  function Tells(b: Book, op: Op): Answer {
    match op
    case Lookup(k, now) =>
      var r := RecordOf(b, k);
      Found(if r.Banned? && now < r.until then Some(r.proxy) else None, b.generation)
    case Reject(k, gen, p, now) =>
      if gen != b.generation then Quiet else Word(RecordOf(b, k), Rejected(RecordOf(b, k), p, now), now)
    case Forget(_, _) | Reset | Evict(_) => Quiet
  }

  function Tale(b: Book, ops: seq<Op>): seq<Answer>
    decreases |ops|
  {
    if ops == [] then [] else [Tells(b, ops[0])] + Tale(Turn(b, ops[0]), ops[1..])
  }

  // ---------------------------------------------------------------- how the two agree

  predicate Rising(s: seq<nat>) {
    forall i, j :: 0 <= i < j < |s| ==> s[i] <= s[j]
  }

  /** The ring holds the newest rejections, each at its number modulo the ring's size. */
  predicate Holds(e: Entry, live: seq<nat>) {
    && live != [] && e.lastReject == live[|live| - 1]
    && e.next == |live| % THRESHOLD
    && e.count == (if |live| < THRESHOLD then |live| else THRESHOLD)
    && forall i :: 0 <= i < |live| && |live| - THRESHOLD <= i ==> e.ring[i % THRESHOLD] == live[i]
  }

  /** The entry counts the rejections from `cut` on; the earlier ones had left the window. */
  predicate Keeps(e: Entry, times: seq<nat>, cut: nat) {
    && cut < |times| && Rising(times) && Holds(e, times[cut..])
    && forall i :: 0 <= i < cut ==> times[i] + WINDOW < times[cut]
  }

  /** Without an entry the record no longer matters to a clock that has reached `floor`. */
  predicate Spent(r: Record, floor: nat) {
    match r
    case Banned(until, _) => until <= floor
    case Counting(times) => Rising(times) && (times != [] ==> Last(times) + WINDOW < floor)
  }

  ghost predicate Agrees(o: Option<Entry>, r: Record, floor: nat) {
    match o
    case None => Spent(r, floor)
    case Some(e) =>
      match r
      case Banned(until, p) => e.banUntil == until != 0 && e.proxy == Some(p)
      case Counting(times) => e.banUntil == 0 && exists cut :: Keeps(e, times, cut)
  }

  /** The newest ten settle whether a rising history has ten in the window. */
  lemma {:induction false} TenInWindow(times: seq<nat>, now: nat, n: nat)
    requires Rising(times) && n > 0
    ensures InWindow(times, now) >= n <==> |times| >= n && now <= times[|times| - n] + WINDOW
  {
    if times != [] {
      var rest := times[..|times| - 1];
      assert forall i :: 0 <= i < |rest| ==> rest[i] == times[i];
      if n > 1 {
        TenInWindow(rest, now, n - 1);
      } else {
        NoneInWindow(rest, now, times[|times| - 1]);
      }
    }
  }

  lemma {:induction false} NoneInWindow(times: seq<nat>, now: nat, top: nat)
    requires forall i :: 0 <= i < |times| ==> times[i] <= top
    ensures now > top + WINDOW ==> InWindow(times, now) == 0
  {
    if times != [] {
      NoneInWindow(times[..|times| - 1], now, top);
    }
  }

  lemma CountFirst(p: Proxy, now: nat)
    ensures Counted(Count(NewEntry(), p, now), [], now, p)
  {
    assert [] + [now] == [now];
  }

  lemma SlotsApart(i: nat, n: nat)
    ensures i < n < i + THRESHOLD ==> i % THRESHOLD != n % THRESHOLD
  {
  }

  lemma SlotsRecur(n: nat)
    ensures (n - 1) % THRESHOLD < THRESHOLD && n % THRESHOLD == ((n - 1) % THRESHOLD + 1) % THRESHOLD
    ensures n >= THRESHOLD ==> n % THRESHOLD == (n - THRESHOLD) % THRESHOLD
  {
  }

  lemma CountMore(e: Entry, live: seq<nat>, p: Proxy, now: nat)
    requires Holds(e, live)
    ensures Counted(Count(e, p, now), live, Max(now, Last(live)), p)
  {
    var t := Max(now, Last(live));
    var more := live + [t];
    var e' := Count(e, p, now);
    forall i | 0 <= i < |more| && |more| - THRESHOLD <= i ensures e'.ring[i % THRESHOLD] == more[i] {
      SlotsApart(i, |live|);
    }
    SlotsRecur(|more|);
  }

  /** An entry that holds the grown history from the cut on agrees with the grown record. */
  lemma GrownAgrees(e: Entry, times: seq<nat>, cut: nat, t: nat, p: Proxy, floor: nat)
    requires Rising(times + [t]) && cut <= |times| && Counted(e, times[cut..], t, p)
    requires forall i :: 0 <= i < cut ==> times[i] + WINDOW < (times + [t])[cut]
    ensures Agrees(Some(e), Grown(times, t, p), floor)
  {
    var more := times + [t];
    TenInWindow(more, t, THRESHOLD);
    assert more[cut..] == times[cut..] + [t];
    assert Keeps(e, more, cut);
  }

  /** What counting a rejection at t, after `live`, leaves in the entry. */
  predicate Counted(e: Entry, live: seq<nat>, t: nat, p: Proxy) {
    var more := live + [t];
    && Holds(e, more)
    && (e.banUntil != 0 <==> |more| >= THRESHOLD && t <= more[|more| - THRESHOLD] + WINDOW)
    && (e.banUntil != 0 ==> e.banUntil == t + BAN && e.proxy == Some(p))
  }

  lemma AllBehind(times: seq<nat>, now: nat)
    requires Rising(times) && (times != [] ==> Last(times) + WINDOW < now)
    ensures Rising(times + [now]) && Max(now, Last(times)) == now
    ensures forall i :: 0 <= i < |times| ==> times[i] + WINDOW < (times + [now])[|times|]
  {
    forall i | 0 <= i < |times| ensures times[i] <= Last(times) {
      assert i == |times| - 1 || times[i] <= times[|times| - 1];
    }
  }

  lemma RestartsRecord(r: Record, p: Proxy, now: nat, floor: nat)
    requires Spent(r, floor) && floor <= now
    ensures Rejected(r, p, now) == Grown(Since(r), now, p)
    ensures Rising(Since(r)) && (Since(r) != [] ==> Last(Since(r)) + WINDOW < now)
  {
    assert Max(now, Last(Since(r))) == now;
  }

  /** A count that starts anew does so in the record too: all before has left the window. */
  lemma AnewAgrees(e: Entry, times: seq<nat>, p: Proxy, now: nat, floor: nat)
    requires Rising(times) && (times != [] ==> Last(times) + WINDOW < now) && Counted(e, [], now, p)
    ensures Agrees(Some(e), Grown(times, now, p), floor)
  {
    AllBehind(times, now);
    assert times[|times|..] == [];
    GrownAgrees(e, times, |times|, now, p, floor);
  }

  lemma MoreAgrees(e: Entry, times: seq<nat>, cut: nat, p: Proxy, now: nat, floor: nat)
    requires cut < |times| && Rising(times) && forall i :: 0 <= i < cut ==> times[i] + WINDOW < times[cut]
    requires Counted(e, times[cut..], Max(now, Last(times)), p)
    ensures Agrees(Some(e), Rejected(Counting(times), p, now), floor)
  {
    GrownAgrees(e, times, cut, Max(now, Last(times)), p, floor);
  }

  lemma RejectAnew(r: Record, p: Proxy, now: nat, floor: nat)
    requires Spent(r, floor) && floor <= now
    ensures Agrees(Some(Count(NewEntry(), p, now)), Rejected(r, p, now), floor)
  {
    CountFirst(p, now);
    RestartsRecord(r, p, now, floor);
    AnewAgrees(Count(NewEntry(), p, now), Since(r), p, now, floor);
  }

  lemma RejectMore(e: Entry, times: seq<nat>, cut: nat, p: Proxy, now: nat, floor: nat)
    requires Keeps(e, times, cut) && e.banUntil == 0
    ensures Agrees(Some(Count(e, p, now)), Rejected(Counting(times), p, now), floor)
  {
    CountMore(e, times[cut..], p, now);
    MoreAgrees(Count(e, p, now), times, cut, p, now, floor);
  }

  lemma LapsedIsSpent(e: Entry, r: Record, now: nat, floor: nat)
    requires Agrees(Some(e), r, floor)
    ensures Lapsed(e, now) ==> Spent(r, now)
    ensures Active(e, now) <==> r.Banned? && now < r.until
  {
    if r.Counting? {
      var cut :| Keeps(e, r.times, cut);
    }
  }

  lemma RejectLive(e: Entry, r: Record, p: Proxy, now: nat, floor: nat)
    requires Agrees(Some(e), r, floor) && !Lapsed(e, now) && !Active(e, now)
    ensures Agrees(Some(Count(e, p, now)), Rejected(r, p, now), floor)
  {
    var cut :| Keeps(e, r.times, cut);
    RejectMore(e, r.times, cut, p, now, floor);
  }

  lemma EntryRejects(o: Option<Entry>, r: Record, p: Proxy, now: nat, floor: nat)
    requires Agrees(o, r, floor) && floor <= now
    ensures Agrees(AfterReject(o, p, now), Rejected(r, p, now), floor)
    ensures (o.Some? && Active(o.value, now)) <==> (r.Banned? && now < r.until)
  {
    match o
    case None => RejectAnew(r, p, now, floor);
    case Some(e) =>
      LapsedIsSpent(e, r, now, floor);
      if Active(e, now) {
        assert Rejected(r, p, now) == r;
      } else if Lapsed(e, now) {
        RejectAnew(r, p, now, now);
      } else {
        RejectLive(e, r, p, now, floor);
      }
  }

  lemma EntryLooks(o: Option<Entry>, r: Record, now: nat, floor: nat)
    requires Agrees(o, r, floor) && floor <= now
    ensures Agrees(AfterLookup(o, now), r, now)
  {
    if o.Some? {
      LapsedIsSpent(o.value, r, now, floor);
    }
  }

  // ---------------------------------------------------------------- whole runs

  type Floors = map<Key, nat>

  function FloorOf(f: Floors, k: Key): nat { if k in f then f[k] else 0 }

  /** The latest clock reading any lookup of each key has used. */
  function Raise(f: Floors, op: Op): Floors {
    if op.Lookup? then f[op.key := op.now] else f
  }

  predicate OnTime(f: Floors, op: Op) {
    op.Lookup? || op.Reject? ==> FloorOf(f, op.key) <= op.now
  }

  /** No lookup or rejection of a key uses a clock reading older than an earlier lookup of that
      key. Rejections may carry readings older than other rejections. */
  predicate Timely(f: Floors, ops: seq<Op>)
    decreases |ops|
  {
    ops == [] || (OnTime(f, ops[0]) && Timely(Raise(f, ops[0]), ops[1..]))
  }

  ghost predicate InStep(c: Cache, b: Book, f: Floors) {
    && c.generation == b.generation
    && forall k :: Agrees(EntryOf(c, k), RecordOf(b, k), FloorOf(f, k))
  }

  /** Only one key changes. */
  lemma OneKey(c: Cache, b: Book, f: Floors, k: Key, o: Option<Entry>, b': Book, f': Floors)
    requires InStep(c, b, f) && b'.generation == b.generation
    requires forall x :: x != k ==> RecordOf(b', x) == RecordOf(b, x) && FloorOf(f', x) == FloorOf(f, x)
    requires Agrees(o, RecordOf(b', k), FloorOf(f', k))
    ensures InStep(Put(c, k, o), b', f')
  {
    forall x ensures Agrees(EntryOf(Put(c, k, o), x), RecordOf(b', x), FloorOf(f', x)) {
      assert Agrees(EntryOf(c, x), RecordOf(b, x), FloorOf(f, x));
    }
  }

  lemma LookupAgrees(c: Cache, b: Book, f: Floors, op: Op)
    requires InStep(c, b, f) && Timely(f, [op]) && op.Lookup?
    ensures InStep(Next(c, op), Turn(b, op), Raise(f, op))
    ensures Says(c, op) == Tells(b, op)
  {
    var o, r := EntryOf(c, op.key), RecordOf(b, op.key);
    EntryLooks(o, r, op.now, FloorOf(f, op.key));
    if o.Some? {
      LapsedIsSpent(o.value, r, op.now, FloorOf(f, op.key));
    }
    OneKey(c, b, f, op.key, AfterLookup(o, op.now), b, Raise(f, op));
  }

  lemma RejectAgrees(c: Cache, b: Book, f: Floors, op: Op)
    requires InStep(c, b, f) && Timely(f, [op]) && op.Reject? && op.gen == c.generation
    ensures InStep(Next(c, op), Turn(b, op), f)
    ensures Says(c, op) == Tells(b, op)
  {
    var o, r := EntryOf(c, op.key), RecordOf(b, op.key);
    EntryRejects(o, r, op.proxy, op.now, FloorOf(f, op.key));
    RejectAgreesWith(c, b, f, op, AfterReject(o, op.proxy, op.now), Rejected(r, op.proxy, op.now));
  }

  lemma RejectAgreesWith(c: Cache, b: Book, f: Floors, op: Op, o': Option<Entry>, r': Record)
    requires InStep(c, b, f) && op.Reject? && Agrees(o', r', FloorOf(f, op.key)) && o'.Some?
    requires var o, r := EntryOf(c, op.key), RecordOf(b, op.key);
      (o.Some? && Active(o.value, op.now)) <==> (r.Banned? && op.now < r.until)
    ensures InStep(Put(c, op.key, o'), b.(records := b.records[op.key := r']), f)
    ensures Report(EntryOf(c, op.key), o', op.now) == Word(RecordOf(b, op.key), r', op.now)
  {
    OneKey(c, b, f, op.key, o', b.(records := b.records[op.key := r']), f);
  }

  lemma StepAgrees(c: Cache, b: Book, f: Floors, op: Op)
    requires InStep(c, b, f) && Timely(f, [op])
    ensures InStep(Next(c, op), Turn(b, op), Raise(f, op))
    ensures Says(c, op) == Tells(b, op)
  {
    match op
    case Lookup(_, _) => LookupAgrees(c, b, f, op);
    case Reject(_, gen, _, _) =>
      if gen == c.generation {
        RejectAgrees(c, b, f, op);
      }
    case Forget(k, gen) => OneKey(c, b, f, k, None, b.(records := b.records[k := Counting([])]), f);
    case Reset =>
    case Evict(k) => OneKey(c, b, f, k, None, b.(records := b.records[k := Counting([])]), f);
  }

  lemma {:induction false} RunsAgree(c: Cache, b: Book, f: Floors, ops: seq<Op>)
    requires InStep(c, b, f) && Timely(f, ops)
    ensures Answers(c, ops) == Tale(b, ops)
    decreases |ops|
  {
    if ops != [] {
      StepAgrees(c, b, f, ops[0]);
      RunsAgree(Next(c, ops[0]), Turn(b, ops[0]), Raise(f, ops[0]), ops[1..]);
    }
  }

  /** Every answer of the cache is the answer of the full history: the ring, the lazy expiry and
      the restarts of the count lose nothing that could matter. */
  lemma CacheCountsExactly(ops: seq<Op>)
    requires Timely(map[], ops)
    ensures Answers(EMPTY, ops) == Tale(Book(map[], 0), ops)
  {
    RunsAgree(EMPTY, Book(map[], 0), map[], ops);
  }

  // ---------------------------------------------------------------- readings older than a lookup's

  /** A lookup that has seen a ban end forgets it: a later lookup with another reading answers as
      the history does unless the ban's end lies between the two readings. */
  lemma LateLookupForgets(c: Cache, b: Book, f: Floors, k: Key, first: nat, second: nat)
    requires InStep(c, b, f) && k in c.entries
    ensures var seen := Next(c, Lookup(k, first)); var told := Turn(b, Lookup(k, first));
      Says(seen, Lookup(k, second)) == Tells(told, Lookup(k, second))
      <==> !(c.entries[k].banUntil != 0 && second < c.entries[k].banUntil <= first)
  {
    assert Agrees(EntryOf(c, k), RecordOf(b, k), FloorOf(f, k));
  }

  function History(b: Book, ops: seq<Op>): Book
    decreases |ops|
  {
    if ops == [] then b else History(Turn(b, ops[0]), ops[1..])
  }

  lemma {:induction false} AnswersLater(c: Cache, b: Book, ops: seq<Op>, more: seq<Op>)
    ensures |Answers(c, ops + more)| == |Tale(b, ops + more)| == |ops| + |more|
    ensures Answers(c, ops + more)[|ops|..] == Answers(Run(c, ops), more)
    ensures Tale(b, ops + more)[|ops|..] == Tale(History(b, ops), more)
    decreases |ops|, |more|
  {
    if ops != [] {
      assert (ops + more)[1..] == ops[1..] + more;
      AnswersLater(Next(c, ops[0]), Turn(b, ops[0]), ops[1..], more);
    } else if more != [] {
      assert ops + more == more && more == [more[0]] + more[1..];
      AnswersLater(Next(c, more[0]), Turn(b, more[0]), [], more[1..]);
      assert [] + more[1..] == more[1..];
    } else {
      assert ops + more == [];
    }
  }

  function Repeated(op: Op, n: nat): seq<Op> { if n == 0 then [] else [op] + Repeated(op, n - 1) }

  /** Counting rejections, all of them at one reading. */
  predicate CountingAt(r: Record, had: nat, now: nat) {
    r.Counting? && |r.times| == had && forall i :: 0 <= i < had ==> r.times[i] == now
  }

  /** Rejections at one reading bring a key to its ban, in the cache as in the history. */
  lemma {:induction false} TenRejections(c: Cache, b: Book, op: Op, had: nat, n: nat)
    requires InStep(c, b, map[]) && op.Reject? && op.gen == c.generation
    requires n > 0 && had + n == THRESHOLD && CountingAt(RecordOf(b, op.key), had, op.now)
    ensures InStep(Run(c, Repeated(op, n)), History(b, Repeated(op, n)), map[])
    ensures RecordOf(History(b, Repeated(op, n)), op.key) == Banned(op.now + BAN, op.proxy)
    decreases n
  {
    RejectedAtOnce(c, b, op, had);
    RunRepeated(c, b, op, n);
    if n > 1 {
      TenRejections(Next(c, op), Turn(b, op), op, had + 1, n - 1);
    }
  }

  lemma RunRepeated(c: Cache, b: Book, op: Op, n: nat)
    requires n > 0
    ensures Run(c, Repeated(op, n)) == Run(Next(c, op), Repeated(op, n - 1))
    ensures History(b, Repeated(op, n)) == History(Turn(b, op), Repeated(op, n - 1))
  {
    assert Repeated(op, n)[1..] == Repeated(op, n - 1);
  }

  lemma RejectedAtOnce(c: Cache, b: Book, op: Op, had: nat)
    requires InStep(c, b, map[]) && op.Reject? && op.gen == c.generation
    requires had < THRESHOLD && CountingAt(RecordOf(b, op.key), had, op.now)
    ensures InStep(Next(c, op), Turn(b, op), map[]) && op.gen == Next(c, op).generation
    ensures var r := RecordOf(Turn(b, op), op.key);
      if had + 1 < THRESHOLD then CountingAt(r, had + 1, op.now) else r == Banned(op.now + BAN, op.proxy)
  {
    StepAgrees(c, b, map[], op);
    OneMoreAtOnce(RecordOf(b, op.key), op.proxy, op.now, had);
  }

  lemma OneMoreAtOnce(r: Record, p: Proxy, now: nat, had: nat)
    requires had < THRESHOLD && CountingAt(r, had, now)
    ensures var after := Rejected(r, p, now);
      if had + 1 < THRESHOLD then CountingAt(after, had + 1, now) else after == Banned(now + BAN, p)
  {
    var more := r.times + [now];
    assert Max(now, Last(r.times)) == now;
    AllInWindow(more, now);
  }

  lemma {:induction false} AllInWindow(times: seq<nat>, now: nat)
    requires forall i :: 0 <= i < |times| ==> times[i] == now
    ensures InWindow(times, now) == |times|
  {
    if times != [] {
      AllInWindow(times[..|times| - 1], now);
    }
  }

  /** The condition on the readings is needed: ten rejections at 5, a lookup as their ban ends and
      a lookup at 6, which finds nothing although the history still has the ban. */
  lemma LateReadingDiverges(k: Key, p: Proxy)
    ensures var ops := Repeated(Reject(k, 0, p, 5), THRESHOLD) + [Lookup(k, 5 + BAN), Lookup(k, 6)];
      Answers(EMPTY, ops) != Tale(Book(map[], 0), ops)
  {
    var op, blank := Reject(k, 0, p, 5), Book(map[], 0);
    var ops, late := Repeated(op, THRESHOLD), [Lookup(k, 5 + BAN), Lookup(k, 6)];
    TenRejections(EMPTY, blank, op, 0, THRESHOLD);
    var c, b := Run(EMPTY, ops), History(blank, ops);
    assert Agrees(EntryOf(c, k), RecordOf(b, k), 0);
    LateLookupForgets(c, b, map[], k, 5 + BAN, 6);
    AnswersLater(EMPTY, blank, ops, late);
    assert late[1..] == [Lookup(k, 6)];
    assert Answers(c, late)[1] == Says(Next(c, late[0]), late[1]);
    assert Tale(b, late)[1] == Tells(Turn(b, late[0]), late[1]);
  }

  /** A rejection at this reading would be the tenth in its window. */
  predicate Tenth(r: Record, now: nat) {
    r.Counting? && |r.times| + 1 >= THRESHOLD
    && Max(now, Last(r.times)) <= (r.times + [Max(now, Last(r.times))])[|r.times| + 1 - THRESHOLD] + WINDOW
  }

  lemma TenthStartsBan(r: Record, p: Proxy, now: nat)
    requires r.Counting? ==> Rising(r.times)
    ensures Word(r, Rejected(r, p, now), now).Started? <==> Tenth(r, now)
  {
    if r.Counting? {
      var t := Max(now, Last(r.times));
      RisesOn(r.times, t);
      TenInWindow(r.times + [t], t, THRESHOLD);
    } else {
      TenInWindow([now], now, THRESHOLD);
      assert [] + [now] == [now];
    }
  }

  lemma RisesOn(times: seq<nat>, t: nat)
    requires Rising(times) && Last(times) <= t
    ensures Rising(times + [t])
  {
    forall i | 0 <= i < |times| ensures times[i] <= t {
      assert i == |times| - 1 || times[i] <= times[|times| - 1];
    }
  }

  lemma LoneCount(p: Proxy, now: nat)
    ensures Report(None, AfterReject(None, p, now), now) == Quiet
  {
    CountFirst(p, now);
  }

  /** A lookup that has let a count lapse forgets it: a later rejection with another reading
      answers as the history does unless the lookup's reading was past the count and the
      rejection's makes it the tenth. */
  lemma LateRejectForgets(c: Cache, b: Book, f: Floors, k: Key, p: Proxy, first: nat, second: nat)
    requires InStep(c, b, f) && k in c.entries
    ensures var rejection := Reject(k, c.generation, p, second);
      Says(Next(c, Lookup(k, first)), rejection) == Tells(Turn(b, Lookup(k, first)), rejection)
      <==> !(Lapsed(c.entries[k], first) && Tenth(RecordOf(b, k), second))
  {
    var e, r := c.entries[k], RecordOf(b, k);
    assert Agrees(Some(e), r, FloorOf(f, k));
    RecordRises(e, r, FloorOf(f, k));
    TenthStartsBan(r, p, second);
    if Lapsed(e, first) {
      LoneCount(p, second);
    } else {
      SameAnswer(e, r, p, second);
    }
  }

  lemma RecordRises(e: Entry, r: Record, floor: nat)
    requires Agrees(Some(e), r, floor)
    ensures r.Counting? ==> Rising(r.times)
  {
    if r.Counting? {
      var cut :| Keeps(e, r.times, cut);
    }
  }

  /** An entry that is still there answers a rejection as its record does, at any reading. */
  lemma SameAnswer(e: Entry, r: Record, p: Proxy, now: nat)
    requires Agrees(Some(e), r, 0)
    ensures Agrees(AfterReject(Some(e), p, now), Rejected(r, p, now), 0)
    ensures Report(Some(e), AfterReject(Some(e), p, now), now) == Word(r, Rejected(r, p, now), now)
  {
    EntryRejects(Some(e), r, p, now, 0);
    SameWord(e, AfterReject(Some(e), p, now), r, Rejected(r, p, now), now);
  }

  lemma SameWord(e: Entry, o: Option<Entry>, r: Record, after: Record, now: nat)
    requires Agrees(o, after, 0) && o.Some? && (Active(e, now) <==> r.Banned? && now < r.until)
    ensures Report(Some(e), o, now) == Word(r, after, now)
  {
  }

  /** And cache and history stay in step, unless the lookup has let an entry lapse that had not
      lapsed at the rejection's reading. */
  lemma LateRejectDiverges(c: Cache, b: Book, f: Floors, k: Key, p: Proxy, first: nat, second: nat)
    requires InStep(c, b, f) && k in c.entries
    ensures var rejection := Reject(k, c.generation, p, second);
      InStep(Next(Next(c, Lookup(k, first)), rejection), Turn(Turn(b, Lookup(k, first)), rejection), f)
      <==> !Lapsed(c.entries[k], first) || Lapsed(c.entries[k], second)
  {
    var e, r := c.entries[k], RecordOf(b, k);
    assert Agrees(Some(e), r, FloorOf(f, k));
    EntryDiverges(e, r, p, first, second);
    var o, after := AfterReject(AfterLookup(Some(e), first), p, second), Rejected(r, p, second);
    KeyInStep(c, b, f, k, AfterLookup(Some(e), first), o, after);
  }

  lemma EntryDiverges(e: Entry, r: Record, p: Proxy, first: nat, second: nat)
    requires Agrees(Some(e), r, 0)
    ensures var o := AfterReject(AfterLookup(Some(e), first), p, second);
      o.Some? && (Agrees(o, Rejected(r, p, second), 0) <==> !Lapsed(e, first) || Lapsed(e, second))
  {
    LapsedIsSpent(e, r, second, 0);
    if !Lapsed(e, first) {
      SameAnswer(e, r, p, second);
    } else if Lapsed(e, second) {
      RejectAnew(r, p, second, second);
    } else {
      LostCount(e, r, p, second);
    }
  }

  /** Whether two states that differ from ones in step in one key are in step, that key decides. */
  lemma KeyInStep(c: Cache, b: Book, f: Floors, k: Key, mid: Option<Entry>, o: Option<Entry>, after: Record)
    requires InStep(c, b, f) && o.Some?
    ensures InStep(Put(Put(c, k, mid), k, o), b.(records := b.records[k := after]), f) <==> Agrees(o, after, 0)
  {
    var u, v := Put(Put(c, k, mid), k, o), b.(records := b.records[k := after]);
    forall x ensures x != k ==> Agrees(EntryOf(u, x), RecordOf(v, x), FloorOf(f, x)) {
      assert Agrees(EntryOf(c, x), RecordOf(b, x), FloorOf(f, x));
    }
    assert EntryOf(u, k) == o && RecordOf(v, k) == after;
  }

  /** A count started anew does not agree with a history that goes on. */
  lemma LostCount(e: Entry, r: Record, p: Proxy, now: nat)
    requires Agrees(Some(e), r, 0) && !Lapsed(e, now)
    ensures !Agrees(Some(Count(NewEntry(), p, now)), Rejected(r, p, now), 0)
  {
    CountFirst(p, now);
    if r.Counting? {
      var cut :| Keeps(e, r.times, cut);
      LoneIsLost(Count(NewEntry(), p, now), r.times, Max(now, Last(r.times)), p, now);
    }
  }

  lemma LoneIsLost(one: Entry, times: seq<nat>, t: nat, p: Proxy, now: nat)
    requires times != [] && t == Max(now, Last(times)) && now <= Last(times) + WINDOW
    requires one.count == 1 && one.banUntil == 0
    ensures !Agrees(Some(one), Grown(times, t, p), 0)
  {
    forall other ensures !Keeps(one, times + [t], other) {
      OneIsNotMore(one, times, t, now, other);
    }
  }

  lemma OneIsNotMore(one: Entry, times: seq<nat>, t: nat, now: nat, cut: nat)
    requires times != [] && t == Max(now, Last(times)) && now <= Last(times) + WINDOW && one.count == 1
    ensures !Keeps(one, times + [t], cut)
  {
    var more := times + [t];
    if cut == |times| {
      assert more[|times| - 1] == Last(times) && more[cut] == t;
    }
  }

  // ---------------------------------------------------------------- bans, for any clock readings

  /** The steps that may end a ban of k that runs until u. */
  predicate Ends(op: Op, k: Key, u: nat, generation: nat) {
    match op
    case Lookup(x, now) => x == k && u <= now
    case Reject(x, _, _, now) => x == k && u <= now
    case Forget(x, gen) => x == k && gen == generation
    case Reset => true
    case Evict(x) => x == k
  }

  /** A running ban is left as it is, whatever the readings: its deadline never moves, every lookup
      finds it, and no rejection reports it again. */
  lemma {:induction false} BanIsFixed(c: Cache, k: Key, ops: seq<Op>)
    requires k in c.entries && c.entries[k].banUntil != 0
    requires forall i :: 0 <= i < |ops| ==> !Ends(ops[i], k, c.entries[k].banUntil, c.generation)
    ensures EntryOf(Run(c, ops), k) == Some(c.entries[k])
    ensures |Answers(c, ops)| == |ops|
    ensures forall i :: 0 <= i < |ops| && ops[i].Lookup? && ops[i].key == k ==>
      Answers(c, ops)[i] == Found(c.entries[k].proxy, c.generation)
    ensures forall i :: 0 <= i < |ops| && ops[i].Reject? && ops[i].key == k ==> Answers(c, ops)[i] == Quiet
    decreases |ops|
  {
    if ops != [] {
      assert !Ends(ops[0], k, c.entries[k].banUntil, c.generation);
      assert forall i :: 0 <= i < |ops[1..]| ==> ops[1..][i] == ops[i + 1];
      BanIsFixed(Next(c, ops[0]), k, ops[1..]);
    }
  }

  /** A reported start is a new ban, one minute from the rejection that reports it. */
  lemma StartIsNew(c: Cache, op: Op)
    requires Says(c, op).Started?
    ensures op.Reject? && op.gen == c.generation
    ensures op.key in c.entries ==> !Active(c.entries[op.key], op.now)
    ensures var u := Says(c, op).until; var c' := Next(c, op);
      && op.key in c'.entries && c'.entries[op.key].banUntil == u && c'.entries[op.key].proxy == Some(op.proxy)
      && op.now + BAN <= u == c'.entries[op.key].lastReject + BAN
  {
  }

  /** One rejection reports each ban: nothing reports that key again until the ban may end. */
  lemma StartedOnce(c: Cache, op: Op, ops: seq<Op>, i: nat)
    requires Says(c, op).Started? && i < |ops| && ops[i].Reject? && ops[i].key == op.key
    requires forall j :: 0 <= j < |ops| ==> !Ends(ops[j], op.key, Says(c, op).until, c.generation)
    ensures |Answers(Next(c, op), ops)| == |ops| && Answers(Next(c, op), ops)[i] == Quiet
  {
    StartIsNew(c, op);
    BanIsFixed(Next(c, op), op.key, ops);
  }

  lemma {:induction false} GenerationGrows(c: Cache, ops: seq<Op>)
    ensures Run(c, ops).generation >= c.generation
    ensures (exists i :: 0 <= i < |ops| && ops[i].Reset?) ==> Run(c, ops).generation > c.generation
    decreases |ops|
  {
    if ops != [] {
      assert forall i :: 0 < i < |ops| ==> ops[i] == ops[1..][i - 1];
      GenerationGrows(Next(c, ops[0]), ops[1..]);
    }
  }

  /** A routing result obtained before a reset changes nothing after it, however late it comes. */
  lemma OldResultsAreDropped(c: Cache, ops: seq<Op>, op: Op)
    requires exists i :: 0 <= i < |ops| && ops[i].Reset?
    requires (op.Reject? || op.Forget?) && op.gen <= c.generation
    ensures Next(Run(c, ops), op) == Run(c, ops) && Says(Run(c, ops), op) == Quiet
  {
    GenerationGrows(c, ops);
  }

  // ---------------------------------------------------------------- the methods

  class RejectBans {
    var entries: map<Key, Entry>
    var generation: nat

    ghost function Value(): Cache
      reads this
    {
      Cache(entries, generation)
    }

    constructor ()
      ensures Value() == EMPTY
    {
      entries, generation := map[], 0;
    }

    method Lookup(key: Key, now: nat) returns (proxy: Option<Proxy>, gen: nat)
      modifies this
      ensures Value() == Next(old(Value()), Op.Lookup(key, now))
      ensures Found(proxy, gen) == Says(old(Value()), Op.Lookup(key, now))
    {
      proxy, gen := None, generation;
      if key !in entries {
        assert entries - {key} == entries;
        return;
      }
      var entry := entries[key];
      assert entries[key := entry] == entries;
      if entry.banUntil != 0 {
        if now < entry.banUntil {
          return entry.proxy, generation;
        }
        entries := entries - {key};
      } else if now - entry.lastReject > WINDOW {
        entries := entries - {key};
      }
    }

    method Reject(key: Key, gen: nat, proxy: Proxy, now: nat) returns (until: nat, started: bool)
      modifies this
      ensures Value() == Next(old(Value()), Op.Reject(key, gen, proxy, now))
      ensures Says(old(Value()), Op.Reject(key, gen, proxy, now)) == if started then Started(until) else Quiet
    {
      until, started := 0, false;
      if gen != generation {
        return;
      }
      if key in entries && entries[key].banUntil != 0 && now < entries[key].banUntil {
        assert entries[key := entries[key]] == entries;
        return;
      }
      if key !in entries || entries[key].banUntil != 0 || now - entries[key].lastReject > WINDOW {
        entries := entries[key := NewEntry()];
      }
      var entry;
      entry, until, started := CountRejection(entries[key], proxy, now);
      entries := entries[key := entry];
      assert entries == old(entries)[key := entry];
    }

    /** The ring and its counters; the tenth rejection inside the window starts a ban. */
    static method CountRejection(before: Entry, proxy: Proxy, now: nat)
      returns (entry: Entry, until: nat, started: bool)
      requires before.banUntil == 0
      ensures entry == Count(before, proxy, now) && until == entry.banUntil && started == (until != 0)
    {
      entry, until, started := before, 0, false;
      // The reading may be older than the last rejection that took the lock.
      var at := if now < entry.lastReject then entry.lastReject else now;
      entry := entry.(lastReject := at, ring := entry.ring[entry.next := at]);
      entry := entry.(next := (entry.next + 1) % THRESHOLD);
      if entry.count < THRESHOLD {
        entry := entry.(count := entry.count + 1);
      }
      if !(entry.count < THRESHOLD || at - entry.ring[entry.next] > WINDOW) {
        entry := entry.(banUntil := at + BAN, proxy := Some(proxy));
        until, started := at + BAN, true;
      }
    }

    method Forget(key: Key, gen: nat)
      modifies this
      ensures Value() == Next(old(Value()), Op.Forget(key, gen))
    {
      if gen == generation {
        entries := entries - {key};
      }
    }

    method Reset()
      modifies this
      ensures Value() == Next(old(Value()), Op.Reset)
    {
      generation := generation + 1;
      entries := map[];
    }
  }
}
