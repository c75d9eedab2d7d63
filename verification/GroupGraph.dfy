/**
 The dependency graph of proxy groups: how many remaining groups list a name, and what
 removing a node does to those counts. `proxyGroupsDagSort` keeps exactly these numbers.
 */
module GroupGraph {
  import opened NetTypes
  import opened Graphs

  /** A decoded group: its name and the proxies it lists, possibly repeatedly. */
  datatype Group = Group(name: string, proxies: seq<string>)

  predicate UniqueNames(gs: seq<Group>) {
    forall i, j :: 0 <= i < j < |gs| ==> gs[i].name != gs[j].name
  }

  function GraphOf(gs: seq<Group>): Graph {
    if gs == [] then map[]
    else
      var last := gs[|gs| - 1];
      GraphOf(gs[..|gs| - 1])[last.name := last.proxies]
  }

  function OptionOf(gs: seq<Group>, n: string): Option<Group> {
    if gs == [] then None
    else if gs[|gs| - 1].name == n then Some(gs[|gs| - 1])
    else OptionOf(gs[..|gs| - 1], n)
  }

  function Nodes(gs: seq<Group>): set<string> {
    if gs == [] then {}
    else
      var last := gs[|gs| - 1];
      Nodes(gs[..|gs| - 1]) + {last.name} + Elements(last.proxies)
  }

  function Occ(ps: seq<string>, n: string): nat {
    multiset(ps)[n]
  }

  /** How often the groups named in `r` list `n`. */
  function Listed(gs: seq<Group>, r: set<string>, n: string): nat {
    if gs == [] then 0
    else
      var last := gs[|gs| - 1];
      Listed(gs[..|gs| - 1], r, n) + if last.name in r then Occ(last.proxies, n) else 0
  }

  /** The groups named in `r`, in order. */
  function Select(gs: seq<Group>, r: set<string>): seq<Group> {
    if gs == [] then []
    else
      var last := gs[|gs| - 1];
      Select(gs[..|gs| - 1], r) + if last.name in r then [last] else []
  }

  // ---------------------------------------------------------------- facts

  lemma {:induction false} OptionIsMember(gs: seq<Group>, n: string)
    ensures match OptionOf(gs, n)
      case Some(g) => g in gs && g.name == n
      case None => forall i :: 0 <= i < |gs| ==> gs[i].name != n
  {
    if gs != [] {
      var front := gs[..|gs| - 1];
      OptionIsMember(front, n);
      assert gs == front + [gs[|gs| - 1]];
    }
  }

  lemma {:induction false} OptionOfMember(gs: seq<Group>, i: nat)
    requires UniqueNames(gs) && i < |gs|
    ensures OptionOf(gs, gs[i].name) == Some(gs[i])
  {
    if i < |gs| - 1 {
      OptionOfMember(gs[..|gs| - 1], i);
    }
  }

  lemma {:induction false} EdgeOf(gs: seq<Group>, a: string, b: string)
    requires UniqueNames(gs)
    ensures Edge(GraphOf(gs), a, b) <==> exists i :: 0 <= i < |gs| && gs[i].name == a && b in gs[i].proxies
  {
    if gs != [] {
      var front, last := gs[..|gs| - 1], gs[|gs| - 1];
      EdgeOf(front, a, b);
      assert forall i :: 0 <= i < |front| ==> front[i] == gs[i];
      if a == last.name {
        assert Edge(GraphOf(gs), a, b) <==> b in last.proxies;
      } else {
        assert Edge(GraphOf(gs), a, b) <==> Edge(GraphOf(front), a, b);
      }
    }
  }

  lemma {:induction false} ListedPositive(gs: seq<Group>, r: set<string>, n: string)
    ensures Listed(gs, r, n) > 0 <==> exists i :: 0 <= i < |gs| && gs[i].name in r && n in gs[i].proxies
  {
    if gs != [] {
      var front, last := gs[..|gs| - 1], gs[|gs| - 1];
      ListedPositive(front, r, n);
      assert forall i :: 0 <= i < |front| ==> front[i] == gs[i];
      assert Occ(last.proxies, n) > 0 <==> n in last.proxies;
    }
  }

  /** Removing a name that no group bears changes nothing; removing a group takes away its list. */
  lemma {:induction false} ListedRemove(gs: seq<Group>, r: set<string>, name: string, n: string)
    requires UniqueNames(gs) && name in r
    ensures Listed(gs, r, n) == Listed(gs, r - {name}, n) +
              match OptionOf(gs, name) case Some(g) => Occ(g.proxies, n) case None => 0
  {
    if gs != [] {
      var front, last := gs[..|gs| - 1], gs[|gs| - 1];
      ListedRemove(front, r, name, n);
      if last.name == name {
        assert forall i :: 0 <= i < |front| ==> front[i] == gs[i] && front[i].name != name;
        OptionIsMember(front, name);
      }
    }
  }

  lemma {:induction false} SelectRemove(gs: seq<Group>, r: set<string>, name: string)
    requires UniqueNames(gs) && name in r
    ensures multiset(Select(gs, r)) == multiset(Select(gs, r - {name})) +
              match OptionOf(gs, name) case Some(g) => multiset{g} case None => multiset{}
  {
    if gs != [] {
      var front, last := gs[..|gs| - 1], gs[|gs| - 1];
      assert forall i :: 0 <= i < |front| ==> front[i] == gs[i];
      SelectRemove(front, r, name);
      if last.name == name {
        OptionIsMember(front, name);
      }
      SelectedMore(gs, r);
      SelectedMore(gs, r - {name});
    }
  }

  lemma SelectedMore(gs: seq<Group>, r: set<string>)
    requires gs != []
    ensures var last := gs[|gs| - 1];
      multiset(Select(gs, r)) ==
        multiset(Select(gs[..|gs| - 1], r)) + if last.name in r then multiset{last} else multiset{}
  {
  }

  lemma {:induction false} SelectAll(gs: seq<Group>, r: set<string>)
    requires forall i :: 0 <= i < |gs| ==> gs[i].name in r
    ensures Select(gs, r) == gs
  {
    if gs != [] {
      var front := gs[..|gs| - 1];
      assert forall i :: 0 <= i < |front| ==> front[i] == gs[i];
      SelectAll(front, r);
      assert gs == front + [gs[|gs| - 1]];
    }
  }

  lemma {:induction false} SelectNone(gs: seq<Group>)
    ensures Select(gs, {}) == []
  {
    if gs != [] {
      SelectNone(gs[..|gs| - 1]);
    }
  }

  lemma {:induction false} NodesCover(gs: seq<Group>, i: nat)
    requires i < |gs|
    ensures gs[i].name in Nodes(gs) && Elements(gs[i].proxies) <= Nodes(gs)
  {
    if i < |gs| - 1 {
      NodesCover(gs[..|gs| - 1], i);
    }
  }
}
