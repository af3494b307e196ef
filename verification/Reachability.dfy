/** Paths in a call graph: the independent definition that the
    recursion analysis and the cooperative set are measured against. */
module Reachability {

  /** `words` are the known names; `edges` may mention unknown ones, which are not edges. */
  datatype Graph<!V(!new,==)> = Graph(words: set<V>, edges: map<V, set<V>>)

  predicate Edge<V(!new,==)>(g: Graph<V>, x: V, y: V) {
    x in g.edges && y in g.edges[x] && y in g.words
  }

  ghost predicate IsPath<V(!new)>(g: Graph<V>, p: seq<V>) {
    |p| > 0 && forall i :: 0 <= i < |p| - 1 ==> Edge(g, p[i], p[i + 1])
  }

  /** y can be reached from x by zero or more calls. */
  ghost predicate Reach<V(!new)>(g: Graph<V>, x: V, y: V) {
    exists p :: IsPath(g, p) && p[0] == x && p[|p| - 1] == y
  }

  /** y can be reached from x by one or more calls. */
  ghost predicate Calls<V(!new)>(g: Graph<V>, x: V, y: V) {
    exists z :: Edge(g, x, z) && Reach(g, z, y)
  }

  ghost predicate Mutual<V(!new)>(g: Graph<V>, x: V, y: V) {
    Reach(g, x, y) && Reach(g, y, x)
  }

  /** A strongly connected component: one whole class of mutual reachability among the words. */
  ghost predicate IsScc<V(!new)>(g: Graph<V>, c: set<V>) {
    && c != {} && c <= g.words
    && forall x, y :: x in c && y in g.words ==> (y in c <==> Mutual(g, x, y))
  }

  ghost predicate Closed<V(!new)>(g: Graph<V>, s: set<V>) {
    forall x, y :: x in s && Edge(g, x, y) ==> y in s
  }

  lemma ReachRefl<V(!new)>(g: Graph<V>, x: V)
    ensures Reach(g, x, x)
  {
    assert IsPath(g, [x]) && [x][0] == x;
  }

  lemma ReachTrans<V(!new)>(g: Graph<V>, x: V, y: V, z: V)
    requires Reach(g, x, y) && Reach(g, y, z)
    ensures Reach(g, x, z)
  {
    var p :| IsPath(g, p) && p[0] == x && p[|p| - 1] == y;
    var q :| IsPath(g, q) && q[0] == y && q[|q| - 1] == z;
    var r := p + q[1..];
    forall i | 0 <= i < |r| - 1 ensures Edge(g, r[i], r[i + 1]) {
      if i >= |p| - 1 {
        assert r[i] == q[i - |p| + 1] && r[i + 1] == q[i - |p| + 2];
      }
    }
    assert IsPath(g, r) && r[0] == x && r[|r| - 1] == z;
  }

  lemma EdgeReach<V(!new)>(g: Graph<V>, x: V, y: V)
    requires Edge(g, x, y)
    ensures Reach(g, x, y)
  {
    var p := [x, y];
    assert IsPath(g, p) && p[0] == x && p[|p| - 1] == y;
  }

  /** A set closed under calls holds everything reachable from its members. */
  lemma ClosedReach<V(!new)>(g: Graph<V>, s: set<V>, x: V, y: V)
    requires Closed(g, s) && x in s && Reach(g, x, y)
    ensures y in s
  {
    var p :| IsPath(g, p) && p[0] == x && p[|p| - 1] == y;
    var i := 0;
    while i < |p| - 1
      invariant 0 <= i < |p| && p[i] in s
    {
      assert Edge(g, p[i], p[i + 1]);
      i := i + 1;
    }
  }

  /** Different members of one class call each other along nonempty paths. */
  lemma DistinctReachCalls<V(!new)>(g: Graph<V>, x: V, y: V)
    requires Reach(g, x, y) && x != y
    ensures Calls(g, x, y)
  {
    var p :| IsPath(g, p) && p[0] == x && p[|p| - 1] == y;
    var q := p[1..];
    assert Edge(g, p[0], p[1]);
    forall i | 0 <= i < |q| - 1 ensures Edge(g, q[i], q[i + 1]) {
      assert q[i] == p[i + 1] && q[i + 1] == p[i + 2];
    }
    assert IsPath(g, q) && q[0] == p[1] && q[|q| - 1] == y;
    assert Reach(g, p[1], y);
  }

  lemma CallsReach<V(!new)>(g: Graph<V>, x: V, y: V)
    requires Calls(g, x, y)
    ensures Reach(g, x, y)
  {
    var z :| Edge(g, x, z) && Reach(g, z, y);
    EdgeReach(g, x, z);
    ReachTrans(g, x, z, y);
  }
}
