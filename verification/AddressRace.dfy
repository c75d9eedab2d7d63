/**
 Racing the addresses of one DNS server (`addressRaceClient`): any number of exchanges
 use the current winner, one at a time selects a replacement, and the losers' clients
 are retired. A step is one mutex-held section or one channel operation.
 */
module AddressRace {
  import opened NetTypes
  import opened AddressPool

  /** Where an exchange is. `second` marks the attempt made while holding the selection. */
  datatype Pc =
    | NeedSelection
    | Holding
    | Trying(second: bool, token: nat, ip: Addr, version: nat)
    | Cleared(second: bool, token: nat)
    | Racing
    | Pruning(keep: set<Addr>)
    | Leaving

  datatype State = State(
    pool: Pool,
    winner: Addr,
    version: nat,
    selector: Option<nat>,
    callers: map<nat, Pc>,
    queries: set<nat>,
    // history: the winner at each version, and the last one chosen
    wins: seq<Addr>,
    last: Addr)

  const START := State(NO_CLIENTS, NoAddr, 0, None, map[], {}, [NoAddr], NoAddr)

  datatype Step =
    | TryWinner(c: nat, token: nat)
    | FailWinner(c: nat)
    | EndTry(c: nat, cancelled: bool)
    | TakeSelection(c: nat)
    | GiveUp(c: nat)
    | RaceAcquire(c: nat, ip: Addr, token: nat)
    | QueryDone(token: nat)
    | RaceWin(c: nat, ip: Addr)
    | RaceLose(c: nat)
    | PruneStep(c: nat)
    | Leave(c: nat)
    | ResetStep(id: nat)

  predicate At(s: State, c: nat, pc: Pc) {
    c in s.callers && s.callers[c] == pc
  }

  predicate IsTrying(s: State, c: nat) {
    c in s.callers && s.callers[c].Trying?
  }

  predicate Enabled(s: State, step: Step) {
    match step
    case TryWinner(c, token) => (c !in s.callers || At(s, c, Holding)) && token !in s.pool.tokens
    case FailWinner(c) => IsTrying(s, c)
    case EndTry(c, _) => c in s.callers && (s.callers[c].Trying? || s.callers[c].Cleared?)
    case TakeSelection(c) => At(s, c, NeedSelection) && s.selector == None
    case GiveUp(c) => At(s, c, NeedSelection) || At(s, c, Holding)
    case RaceAcquire(c, ip, token) => At(s, c, Racing) && ip.IsValid() && token !in s.pool.tokens
    case QueryDone(token) => token in s.queries
    case RaceWin(c, ip) => At(s, c, Racing) && ip.IsValid()
    case RaceLose(c) => At(s, c, Racing)
    case PruneStep(c) => c in s.callers && s.callers[c].Pruning?
    case Leave(c) => At(s, c, Leaving)
    case ResetStep(id) => id in s.pool.doomed
  }

  function Goto(s: State, c: nat, pc: Pc): State {
    s.(callers := s.callers[c := pc])
  }

  /** The exchange is over; a selection it holds is given back by its own last step. */
  function Finish(s: State, c: nat, second: bool): State {
    if second then Goto(s, c, Leaving) else s.(callers := s.callers - {c})
  }

  function Next(s: State, step: Step): State
    requires Enabled(s, step)
  {
    match step
    case TryWinner(c, token) =>
      var second := c in s.callers;
      if s.winner.IsValid()
      then Goto(s, c, Trying(second, token, s.winner, s.version)).(pool := Acquire(s.pool, s.winner, token))
      else Goto(s, c, if second then Racing else NeedSelection)
    case FailWinner(c) =>
      var t := s.callers[c];
      var u := Goto(s, c, Cleared(t.second, t.token));
      if s.version == t.version
      then u.(winner := NoAddr, version := s.version + 1, wins := s.wins + [NoAddr])
      else u
    case EndTry(c, cancelled) =>
      var t := s.callers[c];
      var u := s.(pool := Release(s.pool, t.token));
      if t.Trying? || cancelled then Finish(u, c, t.second)
      else Goto(u, c, if t.second then Racing else NeedSelection)
    case TakeSelection(c) => Goto(s, c, Holding).(selector := Some(c))
    case GiveUp(c) => Finish(s, c, s.callers[c].Holding?)
    case RaceAcquire(c, ip, token) => s.(pool := Acquire(s.pool, ip, token), queries := s.queries + {token})
    case QueryDone(token) => s.(pool := Release(s.pool, token), queries := s.queries - {token})
    case RaceWin(c, ip) =>
      Goto(s, c, Pruning({ip})).(winner := ip, version := s.version + 1, wins := s.wins + [ip], last := ip)
    case RaceLose(c) => Goto(s, c, Pruning({}))
    case PruneStep(c) => Goto(s, c, Leaving).(pool := Prune(s.pool, s.callers[c].keep))
    case Leave(c) => s.(selector := None, callers := s.callers - {c})
    case ResetStep(id) => s.(pool := Reset(s.pool, id))
  }

  // ---------------------------------------------------------------- invariant

  predicate HasToken(s: State, c: nat) {
    c in s.callers && (s.callers[c].Trying? || s.callers[c].Cleared?)
  }

  /** Every release closure has one owner: an exchange or a query of a race. */
  ghost predicate TokensOwned(s: State) {
    && (forall c :: HasToken(s, c) ==> s.callers[c].token in s.pool.tokens && s.callers[c].token !in s.queries)
    && (forall c, d :: HasToken(s, c) && HasToken(s, d) && s.callers[c].token == s.callers[d].token ==> c == d)
    && (forall t :: t in s.queries ==> t in s.pool.tokens)
  }

  predicate Holds(pc: Pc) {
    match pc
    case NeedSelection => false
    case Trying(second, _, _, _) => second
    case Cleared(second, _) => second
    case _ => true
  }

  ghost predicate OneSelector(s: State) {
    && (forall c :: c in s.callers ==> (Holds(s.callers[c]) <==> s.selector == Some(c)))
    && (s.selector.Some? ==> s.selector.value in s.callers)
  }

  /** Versions name winners: an exchange that remembers a version remembers who won it. */
  ghost predicate Versions(s: State) {
    && |s.wins| == s.version + 1 && s.winner == s.wins[s.version]
    && (s.winner.IsValid() ==> s.winner == s.last)
    && (forall c :: IsTrying(s, c) ==>
          && s.callers[c].version <= s.version && s.callers[c].ip.IsValid()
          && s.wins[s.callers[c].version] == s.callers[c].ip)
  }

  /** What the holder of the selection knows about the winner. */
  predicate HolderKnows(pc: Pc, winner: Addr, version: nat, last: Addr) {
    match pc
    case Racing => !winner.IsValid()
    case Cleared(second, _) => second ==> !winner.IsValid()
    case Trying(second, _, _, v) => second ==> version == v || !winner.IsValid()
    case Pruning(keep) => keep <= {last}
    case _ => true
  }

  ghost predicate HoldersKnow(s: State) {
    forall c :: c in s.callers ==> HolderKnows(s.callers[c], s.winner, s.version, s.last)
  }

  /** No race is between its first client and its prune. */
  ghost predicate Quiet(s: State) {
    forall c :: c in s.callers ==> !s.callers[c].Racing? && !s.callers[c].Pruning?
  }

  ghost predicate OnlyLastIsFresh(s: State) {
    Quiet(s) ==> forall id :: id in s.pool.entries && !s.pool.entries[id].stale ==> s.pool.entries[id].ip == s.last
  }

  ghost predicate Inv(s: State) {
    && PoolInv(s.pool) && TokensOwned(s)
    && OneSelector(s) && Versions(s) && HoldersKnow(s) && OnlyLastIsFresh(s)
  }

  // ---------------------------------------------------------------- preservation

  lemma PoolKept(s: State, step: Step)
    requires PoolInv(s.pool) && TokensOwned(s) && Enabled(s, step)
    ensures PoolInv(Next(s, step).pool)
  {
    match step
    case TryWinner(c, token) =>
      if s.winner.IsValid() {
        AcquireKeeps(s.pool, s.winner, token);
      }
    case EndTry(c, _) => assert HasToken(s, c); ReleaseKeeps(s.pool, s.callers[c].token);
    case RaceAcquire(c, ip, token) => AcquireKeeps(s.pool, ip, token);
    case QueryDone(token) => ReleaseKeeps(s.pool, token);
    case PruneStep(c) => PruneKeeps(s.pool, s.callers[c].keep);
    case ResetStep(id) => ResetKeeps(s.pool, id);
    case _ =>
  }

  /** Owners only disappear, and only released tokens disappear with them. */
  lemma TokensShrink(s: State, u: State, gone: set<nat>)
    requires TokensOwned(s) && u.pool.tokens.Keys == s.pool.tokens.Keys - gone && u.queries == s.queries - gone
    requires forall c :: HasToken(u, c) ==>
      HasToken(s, c) && u.callers[c].token == s.callers[c].token && u.callers[c].token !in gone
    ensures TokensOwned(u)
  {
  }

  lemma TokensTry(s: State, step: Step)
    requires PoolInv(s.pool) && TokensOwned(s) && Enabled(s, step) && step.TryWinner?
    ensures TokensOwned(Next(s, step))
  {
    var u := Next(s, step);
    assert u.pool.tokens.Keys == if s.winner.IsValid() then s.pool.tokens.Keys + {step.token} else s.pool.tokens.Keys;
    assert forall d :: d != step.c ==> (HasToken(u, d) <==> HasToken(s, d));
  }

  lemma TokensQuery(s: State, step: Step)
    requires PoolInv(s.pool) && TokensOwned(s) && Enabled(s, step) && step.RaceAcquire?
    ensures TokensOwned(Next(s, step))
  {
    var u := Next(s, step);
    assert u.pool.tokens.Keys == s.pool.tokens.Keys + {step.token} && u.callers == s.callers;
    assert forall d :: HasToken(u, d) <==> HasToken(s, d);
  }

  lemma TokensKept(s: State, step: Step)
    requires PoolInv(s.pool) && TokensOwned(s) && Enabled(s, step)
    ensures TokensOwned(Next(s, step))
  {
    if step.TryWinner? {
      TokensTry(s, step);
    } else if step.RaceAcquire? {
      TokensQuery(s, step);
    } else if step.EndTry? {
      assert HasToken(s, step.c);
      TokensShrink(s, Next(s, step), {s.callers[step.c].token});
    } else if step.QueryDone? {
      TokensShrink(s, Next(s, step), {step.token});
    } else {
      TokensShrink(s, Next(s, step), {});
    }
  }

  lemma SelectorKept(s: State, step: Step)
    requires PoolInv(s.pool) && TokensOwned(s) && OneSelector(s) && Enabled(s, step)
    ensures OneSelector(Next(s, step))
  {
  }

  lemma VersionsKept(s: State, step: Step)
    requires PoolInv(s.pool) && TokensOwned(s) && Versions(s) && Enabled(s, step)
    ensures Versions(Next(s, step))
  {
    if step.FailWinner? || step.RaceWin? {
      VersionsGrow(s, step);
    } else {
      VersionsSame(s, step);
    }
  }

  lemma VersionsGrow(s: State, step: Step)
    requires PoolInv(s.pool) && TokensOwned(s) && Versions(s) && Enabled(s, step) && (step.FailWinner? || step.RaceWin?)
    ensures Versions(Next(s, step))
  {
    var u := Next(s, step);
    assert forall i :: 0 <= i < |s.wins| ==> u.wins[i] == s.wins[i];
  }

  lemma VersionsSame(s: State, step: Step)
    requires PoolInv(s.pool) && TokensOwned(s) && Versions(s) && Enabled(s, step) && !step.FailWinner? && !step.RaceWin?
    ensures Versions(Next(s, step))
  {
    var u := Next(s, step);
    assert u.wins == s.wins && u.version == s.version && u.winner == s.winner && u.last == s.last;
    forall c ensures IsTrying(u, c) ==> (IsTrying(s, c) && u.callers[c] == s.callers[c]) || TriesWinner(u, c) {
    }
  }

  /** A caller that tries the winner there is now. */
  ghost predicate TriesWinner(s: State, c: nat) {
    IsTrying(s, c) && s.callers[c].ip == s.winner && s.callers[c].version == s.version && s.winner.IsValid()
  }

  lemma HoldersKept(s: State, step: Step)
    requires PoolInv(s.pool) && TokensOwned(s) && OneSelector(s) && Versions(s) && HoldersKnow(s) && Enabled(s, step)
    ensures HoldersKnow(Next(s, step))
  {
  }

  /** Acquiring the last winner or releasing anything leaves only the last winner fresh. */
  lemma FreshAfterAcquire(p: Pool, ip: Addr, token: nat, last: Addr)
    requires PoolInv(p) && ip == last
    requires forall id :: id in p.entries && !p.entries[id].stale ==> p.entries[id].ip == last
    ensures var u := Acquire(p, ip, token);
      forall id :: id in u.entries && !u.entries[id].stale ==> u.entries[id].ip == last
  {
  }

  lemma FreshAfterPrune(p: Pool, keep: set<Addr>, last: Addr)
    requires PoolInv(p) && keep <= {last}
    ensures var u := Prune(p, keep);
      forall id :: id in u.entries && !u.entries[id].stale ==> u.entries[id].ip == last
  {
    var u := Prune(p, keep);
    forall id | id in u.entries && !u.entries[id].stale ensures u.entries[id].ip == last {
      assert EntryOk(p, id);
    }
  }

  lemma FreshKept(s: State, step: Step)
    requires Inv(s) && Enabled(s, step)
    ensures OnlyLastIsFresh(Next(s, step))
  {
    match step
    case PruneStep(_) => FreshPrune(s, step);
    case RaceAcquire(c, _, _) => Busy(Next(s, step), c);
    case RaceWin(c, _) => Busy(Next(s, step), c);
    case RaceLose(c) => Busy(Next(s, step), c);
    case TryWinner(_, _) => FreshTry(s, step);
    case QueryDone(_) =>
    case ResetStep(_) =>
    case _ => FreshCaller(s, step);
  }

  lemma FreshPrune(s: State, step: Step)
    requires Inv(s) && Enabled(s, step) && step.PruneStep?
    ensures OnlyLastIsFresh(Next(s, step))
  {
    var pc := s.callers[step.c];
    assert HolderKnows(pc, s.winner, s.version, s.last);
    FreshAfterPrune(s.pool, pc.keep, s.last);
  }

  lemma FreshTry(s: State, step: Step)
    requires Inv(s) && Enabled(s, step) && step.TryWinner?
    ensures OnlyLastIsFresh(Next(s, step))
  {
    var u := Next(s, step);
    if Quiet(u) {
      QuietBefore(s, u, step.c);
      if s.winner.IsValid() {
        FreshAfterAcquire(s.pool, s.winner, step.token, s.last);
      }
    }
  }

  lemma FreshCaller(s: State, step: Step)
    requires Inv(s) && Enabled(s, step)
    requires step.FailWinner? || step.EndTry? || step.TakeSelection? || step.GiveUp? || step.Leave?
    ensures OnlyLastIsFresh(Next(s, step))
  {
    var u := Next(s, step);
    if Quiet(u) {
      QuietBefore(s, u, step.c);
    }
  }

  lemma Busy(u: State, c: nat)
    requires c in u.callers && (u.callers[c].Racing? || u.callers[c].Pruning?)
    ensures !Quiet(u)
  {
  }

  lemma QuietBefore(s: State, u: State, c: nat)
    requires Quiet(u) && (c in s.callers ==> !s.callers[c].Racing? && !s.callers[c].Pruning?)
    requires forall d :: d in s.callers && d != c ==> d in u.callers && u.callers[d] == s.callers[d]
    ensures Quiet(s)
  {
  }

  lemma InvKept(s: State, step: Step)
    requires Inv(s) && Enabled(s, step)
    ensures Inv(Next(s, step))
  {
    PoolKept(s, step);
    TokensKept(s, step);
    SelectorKept(s, step);
    VersionsKept(s, step);
    HoldersKept(s, step);
    FreshKept(s, step);
  }

  // ---------------------------------------------------------------- whole runs

  predicate IsRun(states: seq<State>, steps: seq<Step>) {
    && |states| == |steps| + 1
    && states[0] == START
    && forall i :: 0 <= i < |steps| ==> Enabled(states[i], steps[i]) && states[i + 1] == Next(states[i], steps[i])
  }

  lemma StartInv()
    ensures Inv(START)
  {
    assert forall id :: EntryOk(NO_CLIENTS, id);
  }

  lemma {:induction false} RunInv(states: seq<State>, steps: seq<Step>, i: nat)
    requires IsRun(states, steps) && i < |states|
    ensures Inv(states[i])
  {
    if i == 0 {
      StartInv();
    } else {
      RunInv(states, steps, i - 1);
      InvKept(states[i - 1], steps[i - 1]);
    }
  }

  /** In every run: a used entry is the one in the map; a client is reset at most once by
      release and prune, only after it left the map, never while it is used, and never again. */
  lemma RetiredOnceAndUnused(states: seq<State>, steps: seq<Step>, i: nat, id: nat)
    requires IsRun(states, steps) && i < |states|
    ensures var p := states[i].pool;
      && (id in p.entries && p.entries[id].users > 0 ==> Mapped(p, id) && id !in p.resets)
      && (Enabled(states[i], ResetStep(id)) ==>
            id in p.entries && p.entries[id].users == 0 && !Mapped(p, id) && id !in p.resets)
      && (forall a, b :: 0 <= a < b < |p.resets| ==> p.resets[a] != p.resets[b])
  {
    RunInv(states, steps, i);
    assert EntryOk(states[i].pool, id);
  }

  /** In every run: at most one race at a time, only while no winner is set. */
  lemma OneRaceAtATime(states: seq<State>, steps: seq<Step>, i: nat, c: nat, d: nat)
    requires IsRun(states, steps) && i < |states| && At(states[i], c, Racing)
    ensures !states[i].winner.IsValid() && (At(states[i], d, Racing) ==> c == d)
  {
    RunInv(states, steps, i);
    assert HolderKnows(states[i].callers[c], states[i].winner, states[i].version, states[i].last);
  }

  /** In every run: a failed exchange clears the winner only if it is still the very choice
      that the exchange used; the winner of any other version stays. */
  lemma LateFailureKeepsNewWinner(states: seq<State>, steps: seq<Step>, i: nat, c: nat)
    requires IsRun(states, steps) && i < |steps| && steps[i] == FailWinner(c)
    ensures var (s, u, t) := (states[i], states[i + 1], states[i].callers[c]);
      && t.version < |s.wins| && s.wins[t.version] == t.ip
      && (u.winner != s.winner ==> t.version == s.version && t.ip == s.winner)
      && (t.version < s.version ==> u.winner == s.winner && u.version == s.version)
  {
    RunInv(states, steps, i);
    assert IsTrying(states[i], c);
  }

  /** In every run: while nobody holds the selection, at most one entry is not stale. */
  lemma OneFreshEntry(states: seq<State>, steps: seq<Step>, i: nat, a: nat, b: nat)
    requires IsRun(states, steps) && i < |states| && states[i].selector == None
    requires var e := states[i].pool.entries; a in e && b in e && !e[a].stale && !e[b].stale
    ensures a == b
  {
    RunInv(states, steps, i);
    var p := states[i].pool;
    assert Quiet(states[i]);
    assert EntryOk(p, a) && EntryOk(p, b);
  }
}
