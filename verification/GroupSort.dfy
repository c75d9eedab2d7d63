/**
 `proxyGroupsDagSort`: Kahn's algorithm on the proxy groups, in place, and the location
 of loops when it cannot finish. Go's random map order appears as arbitrary choices.
 */
module GroupSort {
  import opened NetTypes
  import opened Graphs
  import opened GroupGraph

  datatype Outcome = Sorted | Duplicate(name: string) | Loop(names: seq<string>)

  // ---------------------------------------------------------------- what the sort maintains

  /** The queue holds exactly the nodes whose degree has dropped to zero. */
  ghost predicate QueueOk(degree: map<string, int>, queue: seq<string>) {
    NoRepeat(queue) && forall x :: x in queue <==> x in degree && degree[x] == 0
  }

  /** Degrees count the listings by the groups that remain. */
  predicate Counts(gs: seq<Group>, degree: map<string, int>) {
    forall n :: n in degree ==> degree[n] == Listed(gs, degree.Keys, n)
  }

  ghost predicate Indexed(gs: seq<Group>, groups: map<string, Group>) {
    forall n :: OptionOf(gs, n) == if n in groups then Some(groups[n]) else None
  }

  predicate Closed(gs: seq<Group>, r: set<string>) {
    forall i :: 0 <= i < |gs| && gs[i].name in r ==> Elements(gs[i].proxies) <= r
  }

  predicate AfterListers(gs: seq<Group>, order: seq<Group>) {
    forall t, i :: 0 <= t < |order| && 0 <= i < |gs| && order[t].name in gs[i].proxies ==> gs[i] in order[..t]
  }

  /** The groups taken so far: each once, and each after every group that lists it. */
  predicate Placed(gs: seq<Group>, r: set<string>, order: seq<Group>) {
    && multiset(order) + multiset(Select(gs, r)) == multiset(gs)
    && (forall i :: 0 <= i < |gs| && gs[i].name !in r ==> gs[i] in order)
    && (forall t :: 0 <= t < |order| ==> order[t] in gs && order[t].name !in r)
    && UniqueNames(order)
    && AfterListers(gs, order)
  }

  ghost predicate KeepsCycles(gs: seq<Group>, r: set<string>) {
    forall w :: IsCycle(GraphOf(gs), w) ==> Elements(w) <= r
  }

  /** Everything left is listed by something left. */
  predicate AllListed(gs: seq<Group>, r: set<string>) {
    forall n :: n in r ==> Listed(gs, r, n) > 0
  }

  ghost predicate SortInv(gs: seq<Group>, r: set<string>, order: seq<Group>) {
    Closed(gs, r) && Placed(gs, r, order) && KeepsCycles(gs, r)
  }

  function Taken(gs: seq<Group>, name: string): seq<Group> {
    match OptionOf(gs, name) case Some(g) => [g] case None => []
  }

  lemma OrderRemove(gs: seq<Group>, order: seq<Group>, name: string)
    requires AfterListers(gs, order)
    requires forall i :: 0 <= i < |gs| && name in gs[i].proxies ==> gs[i] in order
    ensures AfterListers(gs, order + Taken(gs, name))
  {
    var more := order + Taken(gs, name);
    OptionIsMember(gs, name);
    forall t, i | 0 <= t < |more| && 0 <= i < |gs| && more[t].name in gs[i].proxies ensures gs[i] in more[..t] {
      if t < |order| {
        assert more[t] == order[t] && more[..t] == order[..t];
      } else {
        assert more[t].name == name && more[..t] == order;
      }
    }
  }

  lemma PlacedRemove(gs: seq<Group>, r: set<string>, order: seq<Group>, name: string)
    requires UniqueNames(gs) && Placed(gs, r, order) && name in r
    requires forall i :: 0 <= i < |gs| && gs[i].name in r ==> name !in gs[i].proxies
    ensures Placed(gs, r - {name}, order + Taken(gs, name))
  {
    OptionIsMember(gs, name);
    AllPlaced(gs, r, order, name);
    forall i | 0 <= i < |gs| && gs[i].name !in r - {name} ensures gs[i] in order + Taken(gs, name) {
      if gs[i].name == name {
        OptionOfMember(gs, i);
        assert gs[i] in Taken(gs, name);
      }
    }
    OrderRemove(gs, order, name);
  }

  lemma AllPlaced(gs: seq<Group>, r: set<string>, order: seq<Group>, name: string)
    requires UniqueNames(gs) && multiset(order) + multiset(Select(gs, r)) == multiset(gs) && name in r
    ensures multiset(order + Taken(gs, name)) + multiset(Select(gs, r - {name})) == multiset(gs)
  {
    SelectRemove(gs, r, name);
    assert multiset(order + Taken(gs, name)) == multiset(order) + multiset(Taken(gs, name));
  }

  lemma CyclesRemove(gs: seq<Group>, r: set<string>, name: string)
    requires UniqueNames(gs) && KeepsCycles(gs, r)
    requires forall i :: 0 <= i < |gs| && gs[i].name in r ==> name !in gs[i].proxies
    ensures KeepsCycles(gs, r - {name})
  {
    forall w | IsCycle(GraphOf(gs), w) ensures Elements(w) <= r - {name} {
      if name in w {
        var before, _ := CycleNeighbours(GraphOf(gs), w, name);
        assert before in Elements(w);
        EdgeOf(gs, before, name);
      }
    }
  }

  /** Taking an unlisted node keeps everything the sort relies on. */
  lemma TakeKeeps(gs: seq<Group>, r: set<string>, order: seq<Group>, name: string)
    requires UniqueNames(gs) && SortInv(gs, r, order) && name in r && Listed(gs, r, name) == 0
    ensures SortInv(gs, r - {name}, order + Taken(gs, name))
  {
    ListedPositive(gs, r, name);
    PlacedRemove(gs, r, order, name);
    CyclesRemove(gs, r, name);
  }

  lemma OrderHasRoom(gs: seq<Group>, r: set<string>, order: seq<Group>, name: string)
    requires UniqueNames(gs) && Placed(gs, r, order) && name in r && OptionOf(gs, name).Some?
    ensures |order| < |gs|
  {
    SelectRemove(gs, r, name);
    assert |multiset(order)| + |multiset(Select(gs, r))| == |multiset(gs)|;
  }

  // ---------------------------------------------------------------- step 1.1: the graph

  function InDegree(gs: seq<Group>, n: string): nat {
    if gs == [] then 0 else InDegree(gs[..|gs| - 1], n) + Occ(gs[|gs| - 1].proxies, n)
  }

  lemma {:induction false} ListedByAll(gs: seq<Group>, r: set<string>, n: string)
    requires forall i :: 0 <= i < |gs| ==> gs[i].name in r
    ensures Listed(gs, r, n) == InDegree(gs, n)
  {
    if gs != [] {
      var front := gs[..|gs| - 1];
      assert forall i :: 0 <= i < |front| ==> front[i] == gs[i];
      ListedByAll(front, r, n);
    }
  }

  ghost predicate Built(gs: seq<Group>, degree: map<string, int>, groups: map<string, Group>) {
    && degree.Keys == Nodes(gs)
    && (forall n :: n in degree ==> degree[n] == InDegree(gs, n))
    && Indexed(gs, groups)
  }

  function DegreeOf(degree: map<string, int>, n: string): int {
    if n in degree then degree[n] else 0
  }

  /** Counts every element of a list, creating the nodes not seen before. */
  method CountUp(degree: map<string, int>, list: seq<string>) returns (u: map<string, int>)
    ensures u.Keys == degree.Keys + Elements(list)
    ensures forall n :: DegreeOf(u, n) == DegreeOf(degree, n) + Occ(list, n)
  {
    u := degree;
    var j := 0;
    while j < |list|
      invariant 0 <= j <= |list|
      invariant u.Keys == degree.Keys + Elements(list[..j])
      invariant forall n :: DegreeOf(u, n) == DegreeOf(degree, n) + Occ(list[..j], n)
    {
      assert list[..j + 1] == list[..j] + [list[j]];
      u := u[list[j] := DegreeOf(u, list[j]) + 1];
      j := j + 1;
    }
    assert list[..j] == list;
  }

  /** Uncounts every element of a list and queues whatever drops to zero. */
  method CountDown(degree: map<string, int>, queue: seq<string>, list: seq<string>)
    returns (u: map<string, int>, q: seq<string>)
    requires QueueOk(degree, queue) && Elements(list) <= degree.Keys
    requires forall n :: n in degree ==> degree[n] >= Occ(list, n)
    ensures u.Keys == degree.Keys && forall n :: n in degree ==> u[n] == degree[n] - Occ(list, n)
    ensures QueueOk(u, q) && queue <= q
  {
    u, q := degree, queue;
    var j := 0;
    while j < |list|
      invariant 0 <= j <= |list|
      invariant u.Keys == degree.Keys && forall n :: n in degree ==> u[n] == degree[n] - Occ(list[..j], n)
      invariant QueueOk(u, q) && queue <= q
    {
      var p := list[j];
      assert p in Elements(list);
      StillListed(list, j);
      u := u[p := u[p] - 1];
      assert list[..j + 1] == list[..j] + [p];
      if u[p] == 0 {
        q := q + [p];
      }
      j := j + 1;
    }
    assert list[..j] == list;
  }

  lemma StillListed(list: seq<string>, j: nat)
    requires j < |list|
    ensures Occ(list[..j], list[j]) < Occ(list, list[j])
  {
    assert list == list[..j] + [list[j]] + list[j + 1..];
  }

  lemma {:induction false} NotMentioned(gs: seq<Group>, n: string)
    requires n !in Nodes(gs)
    ensures InDegree(gs, n) == 0 && OptionOf(gs, n) == None
  {
    if gs != [] {
      NotMentioned(gs[..|gs| - 1], n);
      assert n !in gs[|gs| - 1].proxies;
    }
  }

  /** One group more: its own node and those it lists. */
  method AddGroup(ghost front: seq<Group>, degree: map<string, int>, groups: map<string, Group>, g: Group)
    returns (u: map<string, int>, more: map<string, Group>)
    requires Built(front, degree, groups)
    ensures Built(front + [g], u, more)
  {
    u, more := degree, groups[g.name := g];
    if g.name !in degree {
      u := degree[g.name := 0];
    }
    u := CountUp(u, g.proxies);
    ghost var gs := front + [g];
    assert gs[..|gs| - 1] == front;
    forall n | n in u ensures u[n] == InDegree(gs, n) {
      assert u[n] == DegreeOf(u, n) == DegreeOf(degree, n) + Occ(g.proxies, n);
      if n !in degree {
        NotMentioned(front, n);
      }
    }
  }

  /** The first group whose name an earlier one bears is called this. */
  ghost predicate FirstRepeat(gs: seq<Group>, name: string) {
    exists i, j :: 0 <= i < j < |gs| && gs[i].name == name == gs[j].name && UniqueNames(gs[..j])
  }

  /** Builds the graph, or reports the first name borne by two groups. */
  method Build(gs: seq<Group>) returns (degree: map<string, int>, groups: map<string, Group>, twice: Option<string>)
    ensures twice.None? <==> UniqueNames(gs)
    ensures twice.None? ==> Built(gs, degree, groups)
    ensures twice.Some? ==> FirstRepeat(gs, twice.value)
  {
    degree, groups, twice := map[], map[], None;
    var k := 0;
    while k < |gs|
      invariant 0 <= k <= |gs|
      invariant UniqueNames(gs[..k]) && Built(gs[..k], degree, groups)
    {
      OptionIsMember(gs[..k], gs[k].name);
      assert gs[..k + 1] == gs[..k] + [gs[k]];
      if gs[k].name in groups {
        twice := Some(gs[k].name);
        return;
      }
      degree, groups := AddGroup(gs[..k], degree, groups, gs[k]);
      k := k + 1;
    }
    assert gs[..k] == gs;
  }

  /** The nodes of degree zero, in any order. */
  method ZeroDegree(degree: map<string, int>) returns (queue: seq<string>)
    ensures QueueOk(degree, queue)
  {
    queue := [];
    var unseen := degree.Keys;
    while unseen != {}
      invariant unseen <= degree.Keys && NoRepeat(queue)
      invariant forall x :: x in queue <==> x in degree && x !in unseen && degree[x] == 0
      decreases |unseen|
    {
      var n :| n in unseen;
      unseen := unseen - {n};
      if degree[n] == 0 {
        queue := queue + [n];
      }
    }
  }

  /** Deleting the head of the queue from the graph. */
  lemma QueueTail(degree: map<string, int>, queue: seq<string>)
    requires QueueOk(degree, queue) && queue != []
    ensures QueueOk(degree - {queue[0]}, queue[1..])
  {
    var q := queue[1..];
    assert forall x :: x in queue <==> x == queue[0] || x in q;
    assert forall i :: 0 <= i < |q| ==> q[i] == queue[i + 1];
  }

  // ---------------------------------------------------------------- step 1.2: taking unlisted nodes

  /** Removes the head of the queue from the graph, together with what it lists. */
  method TakeHead(ghost gs: seq<Group>, degree: map<string, int>, groups: map<string, Group>, queue: seq<string>)
    returns (u: map<string, int>, q: seq<string>)
    requires UniqueNames(gs) && Counts(gs, degree) && Indexed(gs, groups)
    requires QueueOk(degree, queue) && queue != [] && Closed(gs, degree.Keys)
    ensures u.Keys == degree.Keys - {queue[0]} && Counts(gs, u) && QueueOk(u, q)
  {
    var name := queue[0];
    assert name in queue;
    u, q := degree, queue;
    OptionIsMember(gs, name);
    forall n ensures Listed(gs, degree.Keys, n) == Listed(gs, degree.Keys - {name}, n) +
                       if name in groups then Occ(groups[name].proxies, n) else 0
    {
      ListedRemove(gs, degree.Keys, name, n);
    }
    if name in groups {
      ghost var i :| 0 <= i < |gs| && gs[i] == groups[name];
      assert Elements(gs[i].proxies) <= degree.Keys;
      u, q := CountDown(degree, queue, groups[name].proxies);
    }
    QueueTail(u, q);
    u, q := u - {name}, q[1..];
    assert u.Keys == degree.Keys - {name};
  }

  /** The array holds what was taken, from its end backwards. */
  predicate Backwards(s: seq<Group>, order: seq<Group>) {
    |order| <= |s| && forall t :: 0 <= t < |order| ==> s[|s| - 1 - t] == order[t]
  }

  /** Writes a node that is a group into the next place from the end. */
  method PlaceHead(a: array<Group>, ghost gs: seq<Group>, ghost r: set<string>, ghost order: seq<Group>,
                   groups: map<string, Group>, name: string, index: nat) returns (next: nat)
    requires UniqueNames(gs) && a.Length == |gs| && Indexed(gs, groups) && Placed(gs, r, order) && name in r
    requires Backwards(a[..], order) && index == |order|
    modifies a
    ensures Backwards(a[..], order + Taken(gs, name)) && next == |order + Taken(gs, name)|
  {
    next := index;
    if name in groups {
      OrderHasRoom(gs, r, order, name);
      next := next + 1;
      a[a.Length - next] := groups[name];
    }
  }

  lemma NoneUnlisted(gs: seq<Group>, left: map<string, int>)
    requires Counts(gs, left) && QueueOk(left, [])
    ensures AllListed(gs, left.Keys)
  {
    forall n | n in left ensures Listed(gs, left.Keys, n) > 0 {
      assert n !in [];
    }
  }

  /** Takes unlisted nodes until none is left, writing the groups among them from the end of
      the array towards its front. */
  method TakeAll(a: array<Group>, ghost gs: seq<Group>, degree: map<string, int>, groups: map<string, Group>)
    returns (left: map<string, int>, ghost order: seq<Group>)
    requires UniqueNames(gs) && a.Length == |gs| && Counts(gs, degree) && Indexed(gs, groups)
    requires SortInv(gs, degree.Keys, [])
    modifies a
    ensures SortInv(gs, left.Keys, order) && AllListed(gs, left.Keys) && Backwards(a[..], order)
  {
    left, order := degree, [];
    var queue := ZeroDegree(left);
    var index := 0;
    while queue != []
      invariant Counts(gs, left) && QueueOk(left, queue) && SortInv(gs, left.Keys, order)
      invariant index == |order| && Backwards(a[..], order)
      decreases |left|
    {
      var name := queue[0];
      assert name in queue;
      TakeKeeps(gs, left.Keys, order, name);
      index := PlaceHead(a, gs, left.Keys, order, groups, name, index);
      order := order + Taken(gs, name);
      ghost var before := left;
      left, queue := TakeHead(gs, left, groups, queue);
      assert |left.Keys| < |before.Keys|;
    }
    NoneUnlisted(gs, left);
  }
}
