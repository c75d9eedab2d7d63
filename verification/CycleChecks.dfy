/** The two recursive configuration checks that refuse circular references: dialer-proxy chains
    (config/utils.go) and sub-rule references (config/config.go). Both searches carry the path
    they came by; the reference is a graph without cycles. */
module CycleChecks {
  import opened Graphs

  /** Nothing that can be walked from n runs into itself or into the path that led to n. */
  ghost predicate Clear(g: Graph, path: seq<string>, n: string) {
    forall w :: IsWalk(g, w) && w[0] == n ==> NoRepeat(path + w)
  }

  lemma WalkFrom(g: Graph, w: seq<string>, i: nat, j: nat)
    requires IsWalk(g, w) && i < j <= |w|
    ensures IsWalk(g, w[i..j])
  {
    forall k | 0 <= k < j - i - 1 ensures Edge(g, w[i..j][k], w[i..j][k + 1]) {
      assert Edge(g, w[i + k], w[i + k + 1]);
    }
  }

  lemma ClearStep(g: Graph, path: seq<string>, n: string)
    requires NoRepeat(path + [n])
    requires n in g ==> forall m :: m in g[n] ==> Clear(g, path + [n], m)
    ensures Clear(g, path, n)
  {
    forall w | IsWalk(g, w) && w[0] == n ensures NoRepeat(path + w) {
      if |w| == 1 {
        assert w == [n];
      } else {
        assert Edge(g, w[0], w[1]);
        WalkFrom(g, w, 1, |w|);
        assert NoRepeat(path + [n] + w[1..]);
        assert path + [n] + w[1..] == path + w;
      }
    }
  }

  lemma ClearEverywhere(g: Graph)
    requires forall n :: n in g ==> Clear(g, [], n)
    ensures Acyclic(g)
  {
    forall w ensures !IsCycle(g, w) {
      if |w| > 1 && IsWalk(g, w) {
        assert Edge(g, w[0], w[1]) && Clear(g, [], w[0]) && [] + w == w;
      }
    }
  }

  /** Coming back to the path closes a cycle. */
  lemma RepeatGivesCycle(g: Graph, path: seq<string>, n: string)
    requires IsWalk(g, path + [n]) && n in path
    ensures !Acyclic(g) && !NoRepeat(path + [n])
  {
    var i :| 0 <= i < |path| && path[i] == n;
    var all := path + [n];
    WalkFrom(g, all, i, |all|);
    assert IsCycle(g, all[i..]);
    assert all[i] == all[|path|];
  }

  lemma RepeatMeansCycle(g: Graph, w: seq<string>, i: nat, j: nat)
    requires IsWalk(g, w) && i < j < |w| && w[i] == w[j]
    ensures IsCycle(g, w[i..j + 1])
  {
    WalkFrom(g, w, i, j + 1);
  }

  /** Without cycles every walk ends: it cannot be longer than the nodes with successors allow. */
  lemma WalksEnd(g: Graph, w: seq<string>)
    requires Acyclic(g) && IsWalk(g, w)
    ensures NoRepeat(w) && |w| <= |g| + 1
  {
    forall i, j | 0 <= i < j < |w| ensures w[i] != w[j] {
      if w[i] == w[j] {
        RepeatMeansCycle(g, w, i, j);
      }
    }
    var front := w[..|w| - 1];
    forall x | x in front ensures x in g.Keys {
      var i :| 0 <= i < |front| && front[i] == x;
      assert Edge(g, w[i], w[i + 1]);
    }
    NoRepeatSize(front, g.Keys);
    assert |g.Keys| == |g|;
  }

  // ---------------------------------------------------------------- dialer-proxy

  datatype DialerVerdict = DialersFine | DialerMissing(proxy: string, dialer: string) | DialerLoop(start: string)

  function ChainGraph(chain: map<string, string>): Graph {
    map n | n in chain :: [chain[n]]
  }

  /** The proxies that name a dialer, each with its dialer; an empty name means none. */
  function Dialers(proxies: map<string, string>): map<string, string> {
    map n | n in proxies && proxies[n] != "" :: proxies[n]
  }

  predicate DialersExist(proxies: map<string, string>) {
    forall n :: n in proxies && proxies[n] != "" ==> proxies[n] in proxies
  }

  /** The recursion of validateDialerProxiesHasCycle. The visited map is shared by all its calls;
      since a proxy has one dialer, it always holds exactly the path. */
  method HasCycle(current: string, chain: map<string, string>, visited: set<string>, path: seq<string>)
    returns (r: bool, seen: set<string>)
    requires NoRepeat(path) && Elements(path) <= chain.Keys && visited == Elements(path)
    requires IsWalk(ChainGraph(chain), path + [current])
    ensures !r ==> Clear(ChainGraph(chain), path, current)
    ensures r ==> !Acyclic(ChainGraph(chain))
    ensures r ==> exists w :: IsWalk(ChainGraph(chain), w) && w[0] == (path + [current])[0] && !NoRepeat(w)
    decreases |chain| - |path|
  {
    ghost var g := ChainGraph(chain);
    if current in path {
      RepeatGivesCycle(g, path, current);
      return true, visited;
    }
    if current in visited {
      assert false;
    }
    seen := visited + {current};
    ghost var next := path + [current];
    assert NoRepeat(next) && Elements(next) == seen;
    if current in chain {
      NoRepeatSize(next, chain.Keys);
      assert next[..|path|] == path && Edge(g, current, chain[current]);
      assert IsWalk(g, next + [chain[current]]);
      r, seen := HasCycle(chain[current], chain, seen, path + [current]);
      if r {
        return;
      }
    }
    ClearStep(g, path, current);
    return false, seen;
  }

  /** validateDialerProxies, for any order of its maps: passes exactly when every dialer named
      exists and no chain of dialers runs into a loop. */
  method ValidateDialers(proxies: map<string, string>) returns (r: DialerVerdict)
    ensures r.DialersFine? <==> DialersExist(proxies) && Acyclic(ChainGraph(Dialers(proxies)))
    ensures r.DialersFine? ==> forall w :: IsWalk(ChainGraph(Dialers(proxies)), w) ==> |w| <= |Dialers(proxies)| + 1
    ensures r.DialerMissing? ==>
      r.proxy in proxies && proxies[r.proxy] == r.dialer && r.dialer != "" && r.dialer !in proxies
    ensures r.DialerLoop? ==> DialersExist(proxies) && r.start in Dialers(proxies)
    ensures r.DialerLoop? ==>
      exists w :: IsWalk(ChainGraph(Dialers(proxies)), w) && w[0] == r.start && !NoRepeat(w)
  {
    var chain: map<string, string> := map[];
    var unseen := proxies.Keys;
    while unseen != {}
      invariant unseen <= proxies.Keys
      invariant forall n :: n in proxies && n !in unseen && proxies[n] != "" ==> proxies[n] in proxies
      invariant chain == map n | n in proxies && n !in unseen && proxies[n] != "" :: proxies[n]
      decreases |unseen|
    {
      var name :| name in unseen;
      unseen := unseen - {name};
      if proxies[name] != "" {
        if proxies[name] !in proxies {
          return DialerMissing(name, proxies[name]);
        }
        chain := chain[name := proxies[name]];
      }
    }
    assert chain == Dialers(proxies);
    r := ValidateChains(chain);
    if r.DialersFine? {
      assert ChainGraph(chain).Keys == chain.Keys;
      assert |ChainGraph(chain).Keys| == |ChainGraph(chain)| && |chain.Keys| == |chain|;
      forall w | IsWalk(ChainGraph(chain), w) ensures |w| <= |chain| + 1 {
        WalksEnd(ChainGraph(chain), w);
      }
    }
  }

  method ValidateChains(chain: map<string, string>) returns (r: DialerVerdict)
    ensures !r.DialerMissing? && (r.DialersFine? <==> Acyclic(ChainGraph(chain)))
    ensures r.DialerLoop? ==> r.start in chain
    ensures r.DialerLoop? ==> exists w :: IsWalk(ChainGraph(chain), w) && w[0] == r.start && !NoRepeat(w)
  {
    var unseen := chain.Keys;
    while unseen != {}
      invariant unseen <= chain.Keys
      invariant forall n :: n in chain && n !in unseen ==> Clear(ChainGraph(chain), [], n)
      decreases |unseen|
    {
      var name :| name in unseen;
      unseen := unseen - {name};
      var loop, _ := HasCycle(name, chain, {}, []);
      if loop {
        return DialerLoop(name);
      }
    }
    ClearEverywhere(ChainGraph(chain));
    return DialersFine;
  }

  // ---------------------------------------------------------------- sub-rules

  /** What the check sees of a rule: whether it hands over to a named list of sub-rules. */
  datatype Rule = SubRules(adapter: string) | Other

  datatype RuleVerdict = RulesFine | NotFound(list: string, index: nat, adapter: string) | Circular(path: seq<string>)

  function Adapters(rules: seq<Rule>): (r: seq<string>)
    ensures forall x :: x in r <==> SubRules(x) in rules
  {
    if rules == [] then []
    else Adapters(rules[..|rules| - 1]) + match rules[|rules| - 1] case SubRules(a) => [a] case Other => []
  }

  function RuleGraph(lists: map<string, seq<Rule>>): Graph {
    map n | n in lists :: Adapters(lists[n])
  }

  predicate RulesFound(lists: map<string, seq<Rule>>, n: string)
    requires n in lists
  {
    forall i :: 0 <= i < |lists[n]| && lists[n][i].SubRules? ==> lists[n][i].adapter in lists
  }

  ghost predicate Reports(lists: map<string, seq<Rule>>, start: string, r: RuleVerdict) {
    match r
    case RulesFine => true
    case NotFound(list, i, adapter) =>
      list in lists && i < |lists[list]| && lists[list][i] == SubRules(adapter) && adapter !in lists
    case Circular(path) =>
      IsWalk(RuleGraph(lists), path) && path[0] == start && !NoRepeat(path) && NoRepeat(path[..|path| - 1])
  }

  /** The recursion of verifySubRuleCircularReferences: a missing list or a path that closes on
      itself is reported, and otherwise nothing reachable from here comes back to the path. */
  method VerifyFrom(n: string, lists: map<string, seq<Rule>>, arr: seq<string>) returns (r: RuleVerdict)
    requires n in lists && NoRepeat(arr + [n]) && Elements(arr + [n]) <= lists.Keys
    requires IsWalk(RuleGraph(lists), arr + [n])
    ensures r.RulesFine? ==> RulesFound(lists, n) && Clear(RuleGraph(lists), arr, n)
    ensures Reports(lists, (arr + [n])[0], r)
    decreases |lists| - |arr|
  {
    ghost var g := RuleGraph(lists);
    var path := arr + [n];
    NoRepeatSize(path, lists.Keys);
    var i := 0;
    while i < |lists[n]|
      invariant 0 <= i <= |lists[n]|
      invariant forall k :: 0 <= k < i && lists[n][k].SubRules? ==> lists[n][k].adapter in lists
      invariant forall k :: 0 <= k < i && lists[n][k].SubRules? ==> Clear(g, path, lists[n][k].adapter)
    {
      if lists[n][i].SubRules? {
        var adapter := lists[n][i].adapter;
        if adapter !in lists {
          return NotFound(n, i, adapter);
        }
        assert SubRules(adapter) in lists[n];
        assert Edge(g, n, adapter);
        WalkOn(g, path, adapter);
        if adapter in path {
          RepeatGivesCycle(g, path, adapter);
          assert (path + [adapter])[..|path|] == path;
          return Circular(path + [adapter]);
        }
        GrowPath(path, adapter, lists.Keys);
        r := VerifyFrom(adapter, lists, path);
        if !r.RulesFine? {
          return;
        }
      }
      i := i + 1;
    }
    ClearStep(g, arr, n);
    return RulesFine;
  }

  lemma WalkOn(g: Graph, path: seq<string>, next: string)
    requires IsWalk(g, path) && Edge(g, path[|path| - 1], next)
    ensures IsWalk(g, path + [next])
  {
  }

  lemma GrowPath(path: seq<string>, next: string, keys: set<string>)
    requires NoRepeat(path) && next !in path && Elements(path) <= keys && next in keys
    ensures NoRepeat(path + [next]) && Elements(path + [next]) <= keys && |path| < |keys|
  {
    assert forall x :: x in path + [next] ==> x in Elements(path) || x == next;
    NoRepeatSize(path + [next], keys);
  }

  /** verifySubRule: passes exactly when every list referred to exists and the references have
      no cycle. */
  method VerifySubRules(lists: map<string, seq<Rule>>) returns (r: RuleVerdict)
    ensures r.RulesFine? <==> (forall n :: n in lists ==> RulesFound(lists, n)) && Acyclic(RuleGraph(lists))
    ensures exists start :: Reports(lists, start, r)
  {
    var unseen := lists.Keys;
    while unseen != {}
      invariant unseen <= lists.Keys
      invariant forall n :: n in lists && n !in unseen ==> RulesFound(lists, n) && Clear(RuleGraph(lists), [], n)
      decreases |unseen|
    {
      var name :| name in unseen;
      unseen := unseen - {name};
      r := VerifyFrom(name, lists, []);
      if !r.RulesFine? {
        ReportsAreFaults(lists, name, r);
        return;
      }
    }
    ClearEverywhere(RuleGraph(lists));
    r := RulesFine;
    assert Reports(lists, "", r);
  }

  lemma ReportsAreFaults(lists: map<string, seq<Rule>>, start: string, r: RuleVerdict)
    requires !r.RulesFine? && Reports(lists, start, r)
    ensures !(forall n :: n in lists ==> RulesFound(lists, n)) || !Acyclic(RuleGraph(lists))
  {
    if r.Circular? {
      var i, j :| 0 <= i < j < |r.path| && r.path[i] == r.path[j];
      RepeatMeansCycle(RuleGraph(lists), r.path, i, j);
    } else {
      assert !RulesFound(lists, r.list);
    }
  }
}
