/**
 The second half of `proxyGroupsDagSort`: when some groups could not be sorted, nodes
 that lead nowhere are removed until only the loops, and what lies between them, remain.
 */
module GroupLoops {
  import opened NetTypes
  import opened Graphs
  import opened GroupGraph
  import opened GroupSort

  function Lists(groups: map<string, Group>, n: string): seq<string> {
    if n in groups then groups[n].proxies else []
  }

  /** How many entries of a list are in `l`. */
  function Within(l: set<string>, list: seq<string>): nat {
    if list == [] then 0 else Within(l, list[..|list| - 1]) + if list[|list| - 1] in l then 1 else 0
  }

  lemma {:induction false} WithinRemove(l: set<string>, list: seq<string>, name: string)
    requires name in l
    ensures Within(l, list) == Within(l - {name}, list) + Occ(list, name)
  {
    if list != [] {
      var front := list[..|list| - 1];
      WithinRemove(l, front, name);
      assert list == front + [list[|list| - 1]];
    }
  }

  lemma {:induction false} WithinAll(l: set<string>, list: seq<string>)
    requires Elements(list) <= l
    ensures Within(l, list) == |list|
  {
    if list != [] {
      var front := list[..|list| - 1];
      assert list == front + [list[|list| - 1]];
      assert forall x :: x in front ==> x in list;
      assert list[|list| - 1] in Elements(list);
      WithinAll(l, front);
    }
  }

  lemma {:induction false} WithinPositive(l: set<string>, list: seq<string>)
    ensures Within(l, list) > 0 <==> exists x :: x in list && x in l
  {
    if list != [] {
      var front := list[..|list| - 1];
      WithinPositive(l, front);
      assert list == front + [list[|list| - 1]];
    }
  }

  // ---------------------------------------------------------------- step 2.1: links back

  /** How often `f`, once visited, was linked back from `n`. */
  function Links(groups: map<string, Group>, seen: set<string>, n: string, f: string): nat {
    if f in seen then Occ(Lists(groups, f), n) else 0
  }

  /** `from[n]` holds every visited group that lists `n`, once per listing. */
  ghost predicate LinkedBack(groups: map<string, Group>, seen: set<string>, from: map<string, seq<string>>) {
    forall n, f :: n in from ==> Occ(from[n], f) == Links(groups, seen, n, f)
  }

  predicate SelfContained(groups: map<string, Group>, r: set<string>) {
    forall n {:trigger Elements(Lists(groups, n))} :: n in r ==> Elements(Lists(groups, n)) <= r
  }

  /** One group's list turned into links back to it. */
  method LinkList(r: set<string>, from: map<string, seq<string>>, name: string, list: seq<string>)
    returns (u: map<string, seq<string>>)
    requires from.Keys == r && Elements(list) <= r
    ensures u.Keys == r
    ensures forall n, f :: n in r ==> Occ(u[n], f) == Occ(from[n], f) + if f == name then Occ(list, n) else 0
  {
    u := from;
    var j := 0;
    assert forall n :: Occ(list[..0], n) == 0;
    while j < |list|
      invariant 0 <= j <= |list| && u.Keys == r
      invariant forall n, f :: n in r ==> Occ(u[n], f) == Occ(from[n], f) + if f == name then Occ(list[..j], n) else 0
    {
      var p := list[j];
      assert p in Elements(list);
      assert list[..j + 1] == list[..j] + [p];
      u := u[p := u[p] + [name]];
      j := j + 1;
    }
    assert list[..j] == list;
  }

  method LinkOne(groups: map<string, Group>, r: set<string>, ghost seen: set<string>,
                 from: map<string, seq<string>>, name: string)
    returns (u: map<string, seq<string>>)
    requires from.Keys == r && Elements(Lists(groups, name)) <= r && LinkedBack(groups, seen, from) && name !in seen
    ensures u.Keys == r && LinkedBack(groups, seen + {name}, u)
  {
    u := LinkList(r, from, name, Lists(groups, name));
    forall n, f | n in u ensures Occ(u[n], f) == Links(groups, seen + {name}, n, f) {
      assert Occ(from[n], f) == Links(groups, seen, n, f);
    }
  }

  /** Visits the remaining nodes in any order, counting what each lists and linking it back. */
  method LinkBack(r: set<string>, groups: map<string, Group>)
    returns (out: map<string, int>, from: map<string, seq<string>>)
    requires SelfContained(groups, r)
    ensures out.Keys == r && OutCounts(groups, out)
    ensures from.Keys == r && LinkedBack(groups, r, from)
  {
    out, from := map[], map n | n in r :: [];
    var unseen := r;
    while unseen != {}
      invariant from.Keys == r && forall x :: x in r <==> x in unseen || x in out
      invariant forall x :: x in unseen ==> x !in out
      invariant forall n :: n in out ==> out[n] == |Lists(groups, n)|
      invariant LinkedBack(groups, out.Keys, from)
      decreases |unseen|
    {
      var name :| name in unseen;
      ghost var seen := out.Keys;
      from := LinkOne(groups, r, seen, from, name);
      out := out[name := |Lists(groups, name)|];
      assert out.Keys == seen + {name};
      unseen := unseen - {name};
    }
    assert out.Keys == r;
    AllWithin(groups, out);
  }

  lemma AllWithin(groups: map<string, Group>, out: map<string, int>)
    requires SelfContained(groups, out.Keys) && forall n :: n in out ==> out[n] == |Lists(groups, n)|
    ensures OutCounts(groups, out)
  {
    forall n | n in out ensures out[n] == Within(out.Keys, Lists(groups, n)) {
      WithinAll(out.Keys, Lists(groups, n));
    }
  }

  // ---------------------------------------------------------------- step 2.2: removing dead ends

  predicate OutCounts(groups: map<string, Group>, out: map<string, int>) {
    forall n :: n in out ==> out[n] == Within(out.Keys, Lists(groups, n))
  }

  /** Nothing removed leads back into what remains. */
  predicate NoWayIn(groups: map<string, Group>, r: set<string>, l: set<string>) {
    forall m, n :: m in r && m !in l && n in Lists(groups, m) ==> n !in l
  }

  lemma ListsAreEdges(gs: seq<Group>, groups: map<string, Group>, a: string, b: string)
    requires UniqueNames(gs) && Indexed(gs, groups)
    ensures Edge(GraphOf(gs), a, b) <==> b in Lists(groups, a)
  {
    EdgeOf(gs, a, b);
    OptionIsMember(gs, a);
    if i :| 0 <= i < |gs| && gs[i].name == a {
      OptionOfMember(gs, i);
    }
  }

  lemma DeadEndOffCycles(gs: seq<Group>, groups: map<string, Group>, l: set<string>, name: string)
    requires UniqueNames(gs) && Indexed(gs, groups) && KeepsCycles(gs, l)
    requires forall x :: x in Lists(groups, name) ==> x !in l
    ensures KeepsCycles(gs, l - {name})
  {
    forall w | IsCycle(GraphOf(gs), w) ensures Elements(w) <= l - {name} {
      if name in w {
        var _, after := CycleNeighbours(GraphOf(gs), w, name);
        assert after in Elements(w);
        ListsAreEdges(gs, groups, name, after);
      }
    }
  }

  /** A dead end is listed only by groups that remain, and its removal leaves no way in. */
  lemma DeadEnd(groups: map<string, Group>, r: set<string>, l: set<string>, links: seq<string>, name: string)
    requires l <= r && name in l && NoWayIn(groups, r, l) && Within(l, Lists(groups, name)) == 0
    requires forall f :: Occ(links, f) == Links(groups, r, name, f)
    ensures Elements(links) <= l && NoWayIn(groups, r, l - {name})
  {
    WithinPositive(l, Lists(groups, name));
    forall f | f in links ensures f in l {
      assert Occ(links, f) > 0;
      assert f in r && Occ(Lists(groups, f), name) > 0;
      assert name in Lists(groups, f);
    }
  }

  lemma DeadEndCounts(groups: map<string, Group>, r: set<string>, l: set<string>, links: seq<string>,
                      name: string, n: string)
    requires l <= r && name in l && n in l && Occ(links, n) == Links(groups, r, name, n)
    ensures Within(l, Lists(groups, n)) == Within(l - {name}, Lists(groups, n)) + Occ(links, n)
  {
    WithinRemove(l, Lists(groups, n), name);
  }

  /** Removes the head of the queue and uncounts it for every group that lists it. */
  method DropHead(groups: map<string, Group>, ghost r: set<string>, out: map<string, int>,
                  from: map<string, seq<string>>, queue: seq<string>)
    returns (u: map<string, int>, q: seq<string>)
    requires from.Keys == r && LinkedBack(groups, r, from)
    requires out.Keys <= r && OutCounts(groups, out) && NoWayIn(groups, r, out.Keys)
    requires QueueOk(out, queue) && queue != []
    ensures u.Keys == out.Keys - {queue[0]} && OutCounts(groups, u) && NoWayIn(groups, r, u.Keys) && QueueOk(u, q)
  {
    var name := queue[0];
    assert name in queue;
    DeadEnd(groups, r, out.Keys, from[name], name);
    forall n | n in out
      ensures Within(out.Keys, Lists(groups, n)) == Within(out.Keys - {name}, Lists(groups, n)) + Occ(from[name], n)
    {
      DeadEndCounts(groups, r, out.Keys, from[name], name, n);
    }
    u, q := CountDown(out, queue, from[name]);
    QueueTail(u, q);
    u, q := u - {name}, q[1..];
    assert u.Keys == out.Keys - {name};
  }

  ghost predicate LeadsOn(groups: map<string, Group>, l: set<string>, n: string) {
    exists x :: x in Lists(groups, n) && x in l
  }

  ghost predicate AllLeadOn(groups: map<string, Group>, l: set<string>) {
    forall n {:trigger LeadsOn(groups, l, n)} :: n in l ==> LeadsOn(groups, l, n)
  }

  method DropDeadEnds(ghost gs: seq<Group>, groups: map<string, Group>, r: set<string>) returns (l: set<string>)
    requires UniqueNames(gs) && Indexed(gs, groups) && KeepsCycles(gs, r) && SelfContained(groups, r)
    ensures l <= r && KeepsCycles(gs, l) && NoWayIn(groups, r, l) && AllLeadOn(groups, l)
  {
    var out, from := LinkBack(r, groups);
    var queue := ZeroDegree(out);
    while queue != []
      invariant out.Keys <= r && OutCounts(groups, out) && NoWayIn(groups, r, out.Keys)
      invariant QueueOk(out, queue) && KeepsCycles(gs, out.Keys)
      decreases |out|
    {
      var name := queue[0];
      assert name in queue;
      WithinPositive(out.Keys, Lists(groups, name));
      DeadEndOffCycles(gs, groups, out.Keys, name);
      ghost var before := out;
      out, queue := DropHead(groups, r, out, from, queue);
      assert |out.Keys| < |before.Keys|;
    }
    l := out.Keys;
    forall n | n in l ensures LeadsOn(groups, l, n) {
      assert n !in queue;
      WithinPositive(l, Lists(groups, n));
    }
  }

  // ---------------------------------------------------------------- the whole sort

  lemma StartInv(gs: seq<Group>)
    requires UniqueNames(gs)
    ensures SortInv(gs, Nodes(gs), [])
  {
    var r := Nodes(gs);
    forall i | 0 <= i < |gs| ensures gs[i].name in r && Elements(gs[i].proxies) <= r {
      NodesCover(gs, i);
    }
    SelectAll(gs, r);
    forall w | IsCycle(GraphOf(gs), w) ensures Elements(w) <= r {
      forall n | n in w ensures n in r {
        var _, after := CycleNeighbours(GraphOf(gs), w, n);
        EdgeOf(gs, n, after);
      }
    }
  }

  lemma CountsAtStart(gs: seq<Group>, degree: map<string, int>, groups: map<string, Group>)
    requires Built(gs, degree, groups)
    ensures Counts(gs, degree)
  {
    forall i | 0 <= i < |gs| ensures gs[i].name in degree {
      NodesCover(gs, i);
    }
    forall n | n in degree ensures degree[n] == Listed(gs, degree.Keys, n) {
      ListedByAll(gs, degree.Keys, n);
    }
  }

  lemma {:induction false} ReversedMultiset(s: seq<Group>, order: seq<Group>)
    requires |s| == |order| && forall t :: 0 <= t < |s| ==> s[|s| - 1 - t] == order[t]
    ensures multiset(s) == multiset(order)
  {
    if s != [] {
      var n := |s| - 1;
      var rest := s[1..];
      assert s[n - n] == order[n];
      forall t | 0 <= t < n ensures rest[n - 1 - t] == order[..n][t] {
        assert s[n - t] == order[t];
      }
      ReversedMultiset(rest, order[..n]);
      assert s == [s[0]] + rest && order == order[..n] + [order[n]];
    }
  }

  lemma FollowsWhatItLists(gs: seq<Group>, order: seq<Group>, s: seq<Group>, i: nat, j: nat)
    requires AfterListers(gs, order) && UniqueNames(order) && multiset(s) == multiset(gs)
    requires i < |s| && j < |s| && s[i].name in s[j].proxies
    requires |order| == |s| && forall t :: 0 <= t < |order| ==> s[|s| - 1 - t] == order[t]
    ensures i < j
  {
    var n := |s| - 1;
    assert s[n - (n - i)] == order[n - i] && s[n - (n - j)] == order[n - j];
    assert s[j] in multiset(s);
    var k :| 0 <= k < |gs| && gs[k] == s[j];
    assert gs[k] in order[..n - i];
    var t :| 0 <= t < n - i && order[t] == gs[k];
    assert t == n - j;
  }

  lemma NoCycleLeft(gs: seq<Group>)
    requires KeepsCycles(gs, {})
    ensures Acyclic(GraphOf(gs))
  {
    forall w ensures !IsCycle(GraphOf(gs), w) {
      if |w| > 0 {
        assert w[0] in Elements(w);
      }
    }
  }

  predicate InOrder(s: seq<Group>) {
    forall i, j :: 0 <= i < |s| && 0 <= j < |s| && s[i].name in s[j].proxies ==> i < j
  }

  /** With nothing left, the array is a permutation in which every group follows what it lists. */
  lemma NothingLeft(gs: seq<Group>, order: seq<Group>, s: seq<Group>)
    requires Placed(gs, {}, order) && |s| == |gs|
    requires Backwards(s, order)
    ensures multiset(s) == multiset(gs) && InOrder(s)
  {
    SelectNone(gs);
    assert |multiset(order)| == |multiset(gs)|;
    ReversedMultiset(s, order);
    forall i, j | 0 <= i < |s| && 0 <= j < |s| && s[i].name in s[j].proxies ensures i < j {
      FollowsWhatItLists(gs, order, s, i, j);
    }
  }

  ghost predicate Linked(g: Graph, l: set<string>, n: string) {
    (exists m :: m in l && Edge(g, m, n)) && (exists m :: m in l && Edge(g, n, m))
  }

  /** Every member has a predecessor and a successor among the members. */
  ghost predicate AllLinked(g: Graph, l: set<string>) {
    forall n {:trigger Linked(g, l, n)} :: n in l ==> Linked(g, l, n)
  }

  lemma ListedMeansPredecessor(gs: seq<Group>, r: set<string>)
    requires UniqueNames(gs) && AllListed(gs, r)
    ensures AllHavePredecessors(GraphOf(gs), r)
  {
    forall n | n in r ensures HasPredecessor(GraphOf(gs), r, n) {
      ListedPositive(gs, r, n);
      var i :| 0 <= i < |gs| && gs[i].name in r && n in gs[i].proxies;
      EdgeOf(gs, gs[i].name, n);
    }
  }

  lemma LoopsRemain(gs: seq<Group>, r: set<string>, l: set<string>)
    requires r != {} && AllHavePredecessors(GraphOf(gs), r) && KeepsCycles(gs, l)
    ensures l != {} && !Acyclic(GraphOf(gs))
  {
    var c := PredecessorsGiveCycle(GraphOf(gs), r);
    assert c[0] in Elements(c);
  }

  /** A remaining node's predecessor cannot have been dropped, since it leads to that node. */
  lemma RemainingIsLinked(gs: seq<Group>, groups: map<string, Group>, r: set<string>, l: set<string>, n: string)
    requires UniqueNames(gs) && Indexed(gs, groups) && l <= r && n in l
    requires HasPredecessor(GraphOf(gs), r, n) && NoWayIn(groups, r, l) && LeadsOn(groups, l, n)
    ensures Linked(GraphOf(gs), l, n)
  {
    var m :| m in r && Edge(GraphOf(gs), m, n);
    ListsAreEdges(gs, groups, m, n);
    var x :| x in Lists(groups, n) && x in l;
    ListsAreEdges(gs, groups, n, x);
  }

  lemma RemainingAreLinked(gs: seq<Group>, groups: map<string, Group>, r: set<string>, l: set<string>)
    requires UniqueNames(gs) && Indexed(gs, groups) && l <= r
    requires AllHavePredecessors(GraphOf(gs), r) && NoWayIn(groups, r, l) && AllLeadOn(groups, l)
    ensures AllLinked(GraphOf(gs), l)
  {
    forall n | n in l ensures Linked(GraphOf(gs), l, n) {
      assert HasPredecessor(GraphOf(gs), r, n) && LeadsOn(groups, l, n);
      RemainingIsLinked(gs, groups, r, l, n);
    }
  }

  method ListNames(l: set<string>) returns (names: seq<string>)
    ensures NoRepeat(names) && Elements(names) == l
  {
    names := [];
    var unseen := l;
    while unseen != {}
      invariant unseen <= l && NoRepeat(names) && forall x :: x in names <==> x in l && x !in unseen
      decreases |unseen|
    {
      var n :| n in unseen;
      unseen := unseen - {n};
      names := names + [n];
    }
  }

  /** What a loop report promises: some names, no name twice, every name on a cycle among them,
      and none that could be dropped for having nothing before it or nothing after it. */
  ghost predicate LocatesLoops(g: Graph, names: seq<string>) {
    names != [] && NoRepeat(names) && AllLinked(g, Elements(names)) && forall n :: OnCycle(g, n) ==> n in names
  }

  /** Locates the loops among the groups that could not be sorted. */
  method ReportLoops(ghost gs: seq<Group>, groups: map<string, Group>, r: set<string>) returns (names: seq<string>)
    requires UniqueNames(gs) && Indexed(gs, groups) && r != {} && Closed(gs, r) && KeepsCycles(gs, r)
    requires AllListed(gs, r)
    ensures !Acyclic(GraphOf(gs)) && LocatesLoops(GraphOf(gs), names)
  {
    StaysSelfContained(gs, groups, r);
    var l := DropDeadEnds(gs, groups, r);
    ListedMeansPredecessor(gs, r);
    LoopsRemain(gs, r, l);
    RemainingAreLinked(gs, groups, r, l);
    names := ListNames(l);
    NamesCoverCycles(gs, names);
  }

  /** Groups of different names: the taking loop, then the loop report when something is left. */
  method SortDistinct(a: array<Group>, ghost gs: seq<Group>, degree: map<string, int>, groups: map<string, Group>)
    returns (r: Outcome)
    requires UniqueNames(gs) && a.Length == |gs| && Counts(gs, degree) && Indexed(gs, groups)
    requires SortInv(gs, degree.Keys, [])
    modifies a
    ensures !r.Duplicate? && (r.Sorted? <==> Acyclic(GraphOf(gs)))
    ensures r.Sorted? ==> multiset(a[..]) == multiset(gs) && InOrder(a[..])
    ensures r.Loop? ==> LocatesLoops(GraphOf(gs), r.names)
  {
    var left;
    ghost var order;
    left, order := TakeAll(a, gs, degree, groups);
    if left == map[] {
      assert left.Keys == {};
      NothingLeft(gs, order, a[..]);
      NoCycleLeft(gs);
      return Sorted;
    }
    var names := ReportLoops(gs, groups, left.Keys);
    r := Loop(names);
  }

  /** For any map order: sorts the groups exactly when their names are unique and their graph
      is acyclic; otherwise names a repeated name, or the loops. */
  method DagSort(a: array<Group>) returns (r: Outcome)
    modifies a
    ensures r.Duplicate? <==> !UniqueNames(old(a[..]))
    ensures r.Duplicate? ==> a[..] == old(a[..]) && FirstRepeat(old(a[..]), r.name)
    ensures r.Sorted? <==> UniqueNames(old(a[..])) && Acyclic(GraphOf(old(a[..])))
    ensures r.Sorted? ==> multiset(a[..]) == multiset(old(a[..])) && InOrder(a[..])
    ensures r.Loop? ==> LocatesLoops(GraphOf(old(a[..])), r.names)
  {
    ghost var gs := a[..];
    var degree, groups, twice := Build(a[..]);
    if twice.Some? {
      return Duplicate(twice.value);
    }
    StartInv(gs);
    CountsAtStart(gs, degree, groups);
    r := SortDistinct(a, gs, degree, groups);
  }

  lemma StaysSelfContained(gs: seq<Group>, groups: map<string, Group>, r: set<string>)
    requires UniqueNames(gs) && Indexed(gs, groups) && Closed(gs, r)
    ensures SelfContained(groups, r)
  {
    forall n | n in r ensures Elements(Lists(groups, n)) <= r {
      OptionIsMember(gs, n);
      if n in groups {
        var i :| 0 <= i < |gs| && gs[i] == groups[n];
        assert Elements(gs[i].proxies) <= r;
      }
    }
  }

  lemma NamesCoverCycles(gs: seq<Group>, names: seq<string>)
    requires KeepsCycles(gs, Elements(names))
    ensures forall n :: OnCycle(GraphOf(gs), n) ==> n in names
  {
    forall n | OnCycle(GraphOf(gs), n) ensures n in names {
      var w :| IsCycle(GraphOf(gs), w) && n in w;
      assert n in Elements(w);
    }
  }
}
