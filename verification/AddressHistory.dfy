/**
 Whom the exchanges of an address race use, as a function of the steps taken so far: the winner is
 the last race's, unless an exchange that used that very choice has failed since.
 */
module AddressHistory {
  import opened NetTypes
  import opened AddressPool
  import opened AddressRace

  /** A winner, or none, and how often that has changed. */
  datatype Choice = Choice(winner: Addr, version: nat)

  function Chosen(steps: seq<Step>): Choice
    decreases |steps|
  {
    if steps == [] then Choice(NoAddr, 0)
    else
      var front := steps[..|steps| - 1];
      var now := Chosen(front);
      match steps[|steps| - 1]
      case RaceWin(_, ip) => Choice(ip, now.version + 1)
      case FailWinner(c) => if Used(front, c) == Some(now) then Choice(NoAddr, now.version + 1) else now
      case _ => now
  }

  /** The choice an exchange found when it last looked. */
  function Used(steps: seq<Step>, c: nat): Option<Choice>
    decreases |steps|
  {
    if steps == [] then None
    else
      var front, step := steps[..|steps| - 1], steps[|steps| - 1];
      if step.TryWinner? && step.c == c then Some(Chosen(front)) else Used(front, c)
  }

  /** The address an exchange's race was last won by, if it was. */
  function Raced(steps: seq<Step>, c: nat): set<Addr> {
    if steps == [] then {}
    else
      match steps[|steps| - 1]
      case RaceWin(d, ip) => if d == c then {ip} else Raced(steps[..|steps| - 1], c)
      case RaceLose(d) => if d == c then {} else Raced(steps[..|steps| - 1], c)
      case _ => Raced(steps[..|steps| - 1], c)
  }

  // ---------------------------------------------------------------- the state holds just that

  ghost predicate Follows(s: State, steps: seq<Step>) {
    && Choice(s.winner, s.version) == Chosen(steps)
    && (forall c :: IsTrying(s, c) ==> Used(steps, c) == Some(Choice(s.callers[c].ip, s.callers[c].version)))
    && (forall c :: c in s.callers && s.callers[c].Pruning? ==> s.callers[c].keep == Raced(steps, c))
  }

  lemma ChosenOn(s: State, steps: seq<Step>, step: Step)
    requires Follows(s, steps) && Versions(s) && Enabled(s, step)
    ensures Choice(Next(s, step).winner, Next(s, step).version) == Chosen(steps + [step])
  {
    assert (steps + [step])[..|steps|] == steps;
    if step.FailWinner? {
      FailedChoice(s, steps, step.c);
    }
  }

  lemma UsedOn(s: State, steps: seq<Step>, step: Step, c: nat)
    requires Follows(s, steps) && Enabled(s, step) && IsTrying(Next(s, step), c)
    ensures var u := Next(s, step);
      Used(steps + [step], c) == Some(Choice(u.callers[c].ip, u.callers[c].version))
  {
    assert (steps + [step])[..|steps|] == steps;
    if !(step.TryWinner? && step.c == c) {
      TriedBefore(s, step, c);
    }
  }

  lemma TriedBefore(s: State, step: Step, c: nat)
    requires Enabled(s, step) && IsTrying(Next(s, step), c) && !(step.TryWinner? && step.c == c)
    ensures IsTrying(s, c) && Next(s, step).callers[c] == s.callers[c]
  {
  }

  lemma RacedOn(s: State, steps: seq<Step>, step: Step, c: nat)
    requires Follows(s, steps) && Enabled(s, step) && c in Next(s, step).callers && Next(s, step).callers[c].Pruning?
    ensures Next(s, step).callers[c].keep == Raced(steps + [step], c)
  {
    assert (steps + [step])[..|steps|] == steps;
    if !((step.RaceWin? || step.RaceLose?) && step.c == c) {
      PrunedBefore(s, step, c);
    }
  }

  lemma PrunedBefore(s: State, step: Step, c: nat)
    requires Enabled(s, step) && c in Next(s, step).callers && Next(s, step).callers[c].Pruning?
    requires !((step.RaceWin? || step.RaceLose?) && step.c == c)
    ensures c in s.callers && Next(s, step).callers[c] == s.callers[c]
  {
  }

  lemma FollowsOn(s: State, steps: seq<Step>, step: Step)
    requires Follows(s, steps) && Versions(s) && Enabled(s, step)
    ensures Follows(Next(s, step), steps + [step])
  {
    var u := Next(s, step);
    ChosenOn(s, steps, step);
    forall c | IsTrying(u, c) ensures Used(steps + [step], c) == Some(Choice(u.callers[c].ip, u.callers[c].version)) {
      UsedOn(s, steps, step, c);
    }
    forall c | c in u.callers && u.callers[c].Pruning? ensures u.callers[c].keep == Raced(steps + [step], c) {
      RacedOn(s, steps, step, c);
    }
  }

  /** An exchange fails the current choice exactly when it still remembers its version. */
  lemma FailedChoice(s: State, steps: seq<Step>, c: nat)
    requires Follows(s, steps) && Versions(s) && IsTrying(s, c)
    ensures Used(steps, c) == Some(Chosen(steps)) <==> s.version == s.callers[c].version
  {
  }

  lemma {:induction false} RunFollows(states: seq<State>, steps: seq<Step>, i: nat)
    requires IsRun(states, steps) && i < |states|
    ensures Follows(states[i], steps[..i])
  {
    if i > 0 {
      RunFollows(states, steps, i - 1);
      RunInv(states, steps, i - 1);
      FollowsOn(states[i - 1], steps[..i - 1], steps[i - 1]);
      assert steps[..i - 1] + [steps[i - 1]] == steps[..i];
    }
  }

  // ---------------------------------------------------------------- what every run shows

  /** In every run, the winner is the one the history names. */
  lemma WinnerIsLastChosen(states: seq<State>, steps: seq<Step>, i: nat)
    requires IsRun(states, steps) && i < |states|
    ensures states[i].winner == Chosen(steps[..i]).winner && states[i].version == Chosen(steps[..i]).version
  {
    RunFollows(states, steps, i);
  }

  /** A closure of this address's entry: in the map, fresh, and counted. */
  predicate Acquired(before: Pool, after: Pool, ip: Addr, token: nat) {
    && token in after.tokens && after.tokens[token] in after.entries
    && var id := after.tokens[token];
    && after.entries[id].ip == ip && Mapped(after, id) && !after.entries[id].stale
    && after.entries[id].users == 1 + (if ip in before.clients && before.clients[ip] in before.entries
                                       then before.entries[before.clients[ip]].users else 0)
    && (forall o :: o in before.entries && o != id ==> o in after.entries && after.entries[o] == before.entries[o])
    && after.tokens == before.tokens[token := id] && after.doomed == before.doomed && after.resets == before.resets
  }

  lemma AcquireGives(p: Pool, ip: Addr, token: nat)
    requires PoolInv(p)
    ensures Acquired(p, Acquire(p, ip, token), ip, token)
  {
  }

  /** In every run, an exchange that looks uses exactly that choice, holding a closure of its client;
      exactly when there is none it goes for the selection, or races if it holds the selection. */
  lemma ExchangesUseTheChoice(states: seq<State>, steps: seq<Step>, i: nat)
    requires IsRun(states, steps) && i < |steps| && steps[i].TryWinner?
    ensures var (s, u, c, now) := (states[i], states[i + 1], steps[i].c, Chosen(steps[..i]));
      if now.winner.IsValid() then
        && At(u, c, Trying(c in s.callers, steps[i].token, now.winner, now.version))
        && Acquired(s.pool, u.pool, now.winner, steps[i].token)
      else
        At(u, c, if c in s.callers then Racing else NeedSelection) && u.pool == s.pool
  {
    RunFollows(states, steps, i);
    RunInv(states, steps, i);
    if states[i].winner.IsValid() {
      AcquireGives(states[i].pool, states[i].winner, steps[i].token);
    }
  }

  /** In every run, a query of a race holds a closure of its address's client. */
  lemma QueriesUseTheirAddress(states: seq<State>, steps: seq<Step>, i: nat)
    requires IsRun(states, steps) && i < |steps| && steps[i].RaceAcquire?
    ensures Acquired(states[i].pool, states[i + 1].pool, steps[i].ip, steps[i].token)
    ensures steps[i].token in states[i + 1].queries
  {
    RunInv(states, steps, i);
    AcquireGives(states[i].pool, steps[i].ip, steps[i].token);
  }

  /** What a prune leaves: addresses kept stay as they are, others are stale, and those of them that
      are not in use leave the map to be reset. */
  ghost predicate PrunedTo(before: Pool, after: Pool, keep: set<Addr>) {
    && after.clients.Keys <= before.clients.Keys && after.tokens == before.tokens
    && forall ip :: ip in before.clients ==>
         && before.clients[ip] in before.entries && before.clients[ip] in after.entries
         && var (id, e) := (before.clients[ip], before.entries[before.clients[ip]]);
         && (ip in after.clients <==> ip in keep || e.users > 0)
         && (ip in after.clients ==> after.clients[ip] == id)
         && (id in after.doomed <==> ip !in keep && e.users == 0)
         && after.entries[id] == if ip in keep then e else e.(stale := true)
  }

  lemma PruneLeaves(p: Pool, keep: set<Addr>)
    requires PoolInv(p)
    ensures PrunedTo(p, Prune(p, keep), keep)
  {
    forall ip | ip in p.clients
      ensures Mapped(p, p.clients[ip]) && p.clients[ip] !in p.doomed && p.entries[p.clients[ip]].users >= 0
    {
      assert EntryOk(p, p.clients[ip]);
    }
  }

  /** In every run, the prune after a race keeps the address that won it and no other. */
  lemma PrunesKeepTheWinner(states: seq<State>, steps: seq<Step>, i: nat)
    requires IsRun(states, steps) && i < |steps| && steps[i].PruneStep?
    ensures PrunedTo(states[i].pool, states[i + 1].pool, Raced(steps[..i], steps[i].c))
  {
    RunFollows(states, steps, i);
    RunInv(states, steps, i);
    PruneLeaves(states[i].pool, states[i].callers[steps[i].c].keep);
  }

  // ---------------------------------------------------------------- nothing is forgotten

  /** Every closure not called yet belongs to an exchange under way or to a query of a race. */
  ghost predicate AllOwned(s: State) {
    forall t :: t in s.pool.tokens ==> t in s.queries || exists c :: Owns(s, c, t)
  }

  predicate Owns(s: State, c: nat, t: nat) {
    HasToken(s, c) && s.callers[c].token == t
  }

  lemma OwnersKept(s: State, step: Step)
    requires PoolInv(s.pool) && TokensOwned(s) && AllOwned(s) && Enabled(s, step)
    ensures AllOwned(Next(s, step))
  {
    var u := Next(s, step);
    forall t | t in u.pool.tokens ensures t in u.queries || exists c :: Owns(u, c, t) {
      TokensLeft(s, step);
      if t in s.pool.tokens && t !in s.queries {
        var c :| Owns(s, c, t);
        OwnerStays(s, step, c, t);
      } else if step.TryWinner? && t !in s.queries {
        assert Owns(u, step.c, t);
      }
    }
  }

  /** Which closures a step hands out or calls. */
  lemma TokensLeft(s: State, step: Step)
    requires PoolInv(s.pool) && TokensOwned(s) && Enabled(s, step)
    ensures var (u, t) := (Next(s, step).pool.tokens.Keys, s.pool.tokens.Keys);
      match step
      case TryWinner(_, token) => u == if s.winner.IsValid() then t + {token} else t
      case RaceAcquire(_, _, token) => u == t + {token}
      case EndTry(c, _) => u == t - {s.callers[c].token}
      case QueryDone(token) => u == t - {token}
      case _ => u == t
  {
    if step.EndTry? {
      assert HasToken(s, step.c);
    }
  }

  lemma OwnerStays(s: State, step: Step, c: nat, t: nat)
    requires TokensOwned(s) && Enabled(s, step) && Owns(s, c, t)
    ensures Owns(Next(s, step), c, t) || (step.EndTry? && step.c == c)
  {
  }

  /** In every run, no closure is forgotten: whatever is not released belongs to an exchange that is
      using its client, or to a query of a race. */
  lemma {:induction false} NoClosureForgotten(states: seq<State>, steps: seq<Step>, i: nat)
    requires IsRun(states, steps) && i < |states|
    ensures AllOwned(states[i])
  {
    if i > 0 {
      NoClosureForgotten(states, steps, i - 1);
      RunInv(states, steps, i - 1);
      OwnersKept(states[i - 1], steps[i - 1]);
    }
  }

  /** In every run, an exchange whose winner failed goes on, unless it is cancelled: to the selection,
      or into a race if it holds the selection. Any other exchange is over when it releases its client,
      up to giving back a selection it holds. */
  lemma FailedExchangesGoOn(states: seq<State>, steps: seq<Step>, i: nat)
    requires IsRun(states, steps) && i < |steps| && steps[i].EndTry?
    ensures var (s, u, c) := (states[i], states[i + 1], steps[i].c);
      var holds := s.selector == Some(c);
      if s.callers[c].Cleared? && !steps[i].cancelled then At(u, c, if holds then Racing else NeedSelection)
      else if holds then At(u, c, Leaving)
      else c !in u.callers
  {
    RunInv(states, steps, i);
    assert Holds(states[i].callers[steps[i].c]) <==> states[i].selector == Some(steps[i].c);
  }
}
