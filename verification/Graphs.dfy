/** Directed graphs by adjacency, walks and cycles: the reference the config checks are measured by. */
module Graphs {

  type Graph = map<string, seq<string>>

  predicate Edge(g: Graph, a: string, b: string) {
    a in g && b in g[a]
  }

  predicate IsWalk(g: Graph, w: seq<string>) {
    |w| > 0 && forall i :: 0 <= i < |w| - 1 ==> Edge(g, w[i], w[i + 1])
  }

  predicate IsCycle(g: Graph, w: seq<string>) {
    |w| > 1 && IsWalk(g, w) && w[0] == w[|w| - 1]
  }

  ghost predicate Acyclic(g: Graph) {
    forall w :: !IsCycle(g, w)
  }

  ghost predicate OnCycle(g: Graph, n: string) {
    exists w :: IsCycle(g, w) && n in w
  }

  /** Every node of a cycle has a predecessor and a successor on that cycle. */
  lemma CycleNeighbours(g: Graph, w: seq<string>, n: string) returns (before: string, after: string)
    requires IsCycle(g, w) && n in w
    ensures before in w && after in w && Edge(g, before, n) && Edge(g, n, after)
  {
    var i :| 0 <= i < |w| && w[i] == n;
    var p := if i == 0 then |w| - 2 else i - 1;
    var q := if i == |w| - 1 then 0 else i;
    before, after := w[p], w[q + 1];
    assert Edge(g, w[p], w[p + 1]) && Edge(g, w[q], w[q + 1]);
  }

  predicate NoRepeat(w: seq<string>) {
    forall i, j :: 0 <= i < j < |w| ==> w[i] != w[j]
  }

  function Elements(w: seq<string>): set<string> {
    set x | x in w
  }

  lemma {:induction false} NoRepeatSize(w: seq<string>, r: set<string>)
    requires NoRepeat(w) && Elements(w) <= r
    ensures |w| <= |r|
  {
    if w != [] {
      var rest := w[1..];
      assert w[0] in Elements(w);
      assert forall x :: x in rest ==> x in w;
      assert Elements(rest) <= r - {w[0]};
      NoRepeatSize(rest, r - {w[0]});
    }
  }

  ghost predicate HasPredecessor(g: Graph, r: set<string>, n: string) {
    exists m :: m in r && Edge(g, m, n)
  }

  ghost predicate AllHavePredecessors(g: Graph, r: set<string>) {
    forall n {:trigger HasPredecessor(g, r, n)} :: n in r ==> HasPredecessor(g, r, n)
  }

  /** A finite non-empty set whose members all have a predecessor in it contains a cycle. */
  lemma {:induction false} BackwardsFindsCycle(g: Graph, r: set<string>, w: seq<string>) returns (c: seq<string>)
    requires IsWalk(g, w) && NoRepeat(w) && Elements(w) <= r
    requires AllHavePredecessors(g, r)
    ensures IsCycle(g, c) && Elements(c) <= r
    decreases |r| - |w|
  {
    NoRepeatSize(w, r);
    assert w[0] in Elements(w);
    assert HasPredecessor(g, r, w[0]);
    var m :| m in r && Edge(g, m, w[0]);
    var longer := [m] + w;
    assert IsWalk(g, longer);
    assert forall x :: x in longer ==> x == m || x in w;
    if m in w {
      var j :| 0 <= j < |w| && w[j] == m;
      c := longer[..j + 2];
      assert forall x :: x in c ==> x in longer;
      assert forall i :: 0 <= i < |c| - 1 ==> Edge(g, longer[i], longer[i + 1]);
    } else {
      assert Elements(longer) <= r;
      NoRepeatSize(longer, r);
      c := BackwardsFindsCycle(g, r, longer);
    }
  }

  lemma PredecessorsGiveCycle(g: Graph, r: set<string>) returns (c: seq<string>)
    requires r != {}
    requires AllHavePredecessors(g, r)
    ensures IsCycle(g, c) && Elements(c) <= r
  {
    var n :| n in r;
    assert forall x :: x in [n] ==> x == n;
    c := BackwardsFindsCycle(g, r, [n]);
  }
}
