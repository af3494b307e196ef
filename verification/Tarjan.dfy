/** Tarjan's recursive visit (crates/compiler/src/call_graph.rs:117-233): the value
    of its working state, the invariant, and one lemma for each step of a visit. */
module Tarjan {
  import opened Reachability
  import opened Wrappers

  datatype Snapshot<!V(!new,==)> = Snapshot(
    indexCounter: nat,
    stack: seq<V>,
    onStack: set<V>,
    indices: map<V, nat>,
    lowlinks: map<V, nat>,
    sccs: seq<set<V>>)
  {
    /** Indexed and already assigned to a component. */
    function Finished(): set<V> {
      indices.Keys - onStack
    }
  }

  function Elements<V(!new,==)>(s: seq<V>): set<V> {
    set x | x in s
  }

  /** The on-stack set is the stack's contents, without repetition. */
  ghost predicate StackShape<V(!new)>(t: Snapshot<V>) {
    Distinct(t.stack) && t.onStack == Elements(t.stack)
  }

  /** Every indexed word has a lowlink, and the counter is above every index. */
  ghost predicate Numbered<V(!new)>(g: Graph<V>, t: Snapshot<V>) {
    && t.onStack <= t.indices.Keys <= g.words
    && t.lowlinks.Keys == t.indices.Keys
    && (forall x :: x in t.indices ==> t.indices[x] < t.indexCounter)
  }

  /** The components found so far are whole components, pairwise disjoint, and
      together hold exactly the finished words. */
  ghost predicate SccsExact<V(!new)>(g: Graph<V>, sccs: seq<set<V>>, finished: set<V>) {
    && (forall k :: 0 <= k < |sccs| ==> IsScc(g, sccs[k]) && sccs[k] <= finished)
    && (forall k, l :: 0 <= k < l < |sccs| ==> sccs[k] !! sccs[l])
    && (forall x :: x in finished ==> exists k :: 0 <= k < |sccs| && x in sccs[k])
  }

  /** A word on the stack reaches every later word on the stack. */
  ghost predicate StackReach<V(!new)>(g: Graph<V>, t: Snapshot<V>) {
    forall x, y :: x in t.onStack && y in t.onStack && x in t.indices && y in t.indices && t.indices[x] <= t.indices[y]
                   ==> Reach(g, x, y)
  }

  /** y reaches an active word that was indexed no later than y. */
  ghost predicate ReachesActive<V(!new)>(g: Graph<V>, t: Snapshot<V>, active: set<V>, y: V) {
    exists a :: a in active && a in t.indices && y in t.indices && t.indices[a] <= t.indices[y] && Reach(g, y, a)
  }

  ghost predicate AllReachActive<V(!new)>(g: Graph<V>, t: Snapshot<V>, active: set<V>) {
    && active <= t.onStack
    && (forall y {:trigger ReachesActive(g, t, active, y)} :: y in t.onStack ==> ReachesActive(g, t, active, y))
  }

  /** Only an active word can still have a call to an unindexed word. */
  ghost predicate CallsIndexed<V(!new)>(g: Graph<V>, indexed: set<V>, active: set<V>) {
    forall x, y :: x in indexed && x !in active && Edge(g, x, y) ==> y in indexed
  }

  /** `active` holds the words whose visit has started and not yet returned. */
  ghost predicate Inv<V(!new)>(g: Graph<V>, t: Snapshot<V>, active: set<V>) {
    && StackShape(t)
    && Numbered(g, t)
    && Closed(g, t.Finished())
    && CallsIndexed(g, t.indices.Keys, active)
    && StackReach(g, t)
    && AllReachActive(g, t, active)
    && SccsExact(g, t.sccs, t.Finished())
  }

  ghost predicate Submap<V(!new)>(m: map<V, nat>, n: map<V, nat>) {
    forall x :: x in m ==> x in n && n[x] == m[x]
  }

  /** What no visit changes: everything recorded before it started. */
  ghost predicate Extends<V(!new)>(s: Snapshot<V>, t: Snapshot<V>) {
    && s.stack <= t.stack
    && s.onStack <= t.onStack
    && s.Finished() <= t.Finished()
    && s.indexCounter <= t.indexCounter
    && Submap(s.indices, t.indices)
    && Submap(s.lowlinks, t.lowlinks)
    && (forall x :: x in t.indices && x !in s.indices ==> s.indexCounter <= t.indices[x])
  }

  /** Calls from the words stacked since s, other than w, into the stack of s reach no lower than `low`. */
  ghost predicate BackCalls<V(!new)>(g: Graph<V>, s: Snapshot<V>, t: Snapshot<V>, w: V, low: nat) {
    forall x, y :: x in t.onStack && x !in s.onStack && x != w && y in s.onStack && y in t.indices && Edge(g, x, y)
                   ==> low <= t.indices[y]
  }

  /** `low` is the index of a word of `targets` that w reaches. */
  ghost predicate LowWitness<V(!new)>(g: Graph<V>, t: Snapshot<V>, w: V, targets: set<V>, low: nat) {
    exists y :: y in targets && y in t.indices && t.indices[y] == low && Reach(g, w, y)
  }

  /** The callees of w in `done` are indexed, and those on the stack of s lie no lower than `low`. */
  ghost predicate CalleesSeen<V(!new)>(g: Graph<V>, s: Snapshot<V>, t: Snapshot<V>, w: V, done: set<V>, low: nat) {
    forall c :: c in done && Edge(g, w, c) ==> c in t.indices && (c in s.onStack ==> low <= t.indices[c])
  }

  /** What the finished visit of w, started at s, has done. */
  ghost predicate Visited<V(!new)>(g: Graph<V>, s: Snapshot<V>, t: Snapshot<V>, active: set<V>, w: V) {
    && Inv(g, t, active)
    && Extends(s, t)
    && w in t.indices && w in t.lowlinks
    && (w in t.onStack ==> LowWitness(g, t, w, s.onStack, t.lowlinks[w]))
    && (w !in t.onStack ==> t.onStack == s.onStack && s.indexCounter <= t.lowlinks[w])
    && BackCalls(g, s, t, w, t.lowlinks[w])
    && CalleesSeen(g, s, t, w, g.words, t.lowlinks[w])
  }

  /** Where w stands during its visit. */
  ghost predicate Entered<V(!new)>(s: Snapshot<V>, t: Snapshot<V>, w: V) {
    && Extends(s, t)
    && |s.stack| < |t.stack| && t.stack[|s.stack|] == w
    && w !in s.indices && w in t.indices && w in t.lowlinks && w in t.onStack
    && t.indices[w] == s.indexCounter
    && t.lowlinks[w] <= t.indices[w]
  }

  /** What the current lowlink of w means. */
  ghost predicate LowMeaning<V(!new)>(g: Graph<V>, s: Snapshot<V>, t: Snapshot<V>, w: V, done: set<V>, low: nat) {
    && LowWitness(g, t, w, s.onStack + {w}, low)
    && BackCalls(g, s, t, w, low)
    && CalleesSeen(g, s, t, w, done, low)
  }

  /** The state inside the visit of w, started at s, once the callees in `done` have been looked at. */
  ghost predicate InVisit<V(!new)>(g: Graph<V>, s: Snapshot<V>, t: Snapshot<V>, active: set<V>, w: V, done: set<V>) {
    && Inv(g, s, active)
    && Inv(g, t, active + {w})
    && Entered(s, t, w)
    && LowMeaning(g, s, t, w, done, t.lowlinks[w])
  }

  function Enter<V(!new,==)>(t: Snapshot<V>, w: V): Snapshot<V> {
    Snapshot(t.indexCounter + 1, t.stack + [w], t.onStack + {w},
             t.indices[w := t.indexCounter], t.lowlinks[w := t.indexCounter], t.sccs)
  }

  function Relax<V(!new,==)>(t: Snapshot<V>, w: V, candidate: nat): Snapshot<V>
    requires w in t.lowlinks
  {
    t.(lowlinks := t.lowlinks[w := if candidate < t.lowlinks[w] then candidate else t.lowlinks[w]])
  }

  /** Everything stacked since s leaves the stack as one component. */
  function Pop<V(!new,==)>(t: Snapshot<V>, s: Snapshot<V>): Snapshot<V> {
    t.(stack := s.stack, onStack := s.onStack, sccs := t.sccs + [t.onStack - s.onStack])
  }

  // ---- Entering a word ----

  lemma EnterShape<V(!new)>(s: Snapshot<V>, w: V)
    requires StackShape(s) && w !in s.onStack
    ensures StackShape(Enter(s, w))
  {
    var t := s.stack + [w];
    assert forall x :: x in t <==> x in s.stack || x == w;
    forall i, j | 0 <= i < j < |t| ensures t[i] != t[j] {
      assert t[i] in s.onStack;
    }
  }

  lemma EnterNumbered<V(!new)>(g: Graph<V>, s: Snapshot<V>, w: V)
    requires Numbered(g, s) && w in g.words && w !in s.indices
    ensures Numbered(g, Enter(s, w))
    ensures Enter(s, w).Finished() == s.Finished()
    ensures Entered(s, Enter(s, w), w)
  {
    var t := Enter(s, w);
    assert t.stack[|s.stack|] == w;
  }

  /** Every word on the stack reaches the word that is entered. */
  lemma StackReachesEntered<V(!new)>(g: Graph<V>, s: Snapshot<V>, active: set<V>, w: V, x: V)
    requires AllReachActive(g, s, active) && x in s.onStack
    requires forall a :: a in active ==> Reach(g, a, w)
    ensures Reach(g, x, w)
  {
    hide Reach;
    assert ReachesActive(g, s, active, x);
    var a :| a in active && Reach(g, x, a);
    ReachTrans(g, x, a, w);
  }

  lemma EnterReach<V(!new)>(g: Graph<V>, s: Snapshot<V>, active: set<V>, w: V)
    requires Numbered(g, s) && AllReachActive(g, s, active) && StackReach(g, s) && w !in s.indices
    requires forall a :: a in active ==> Reach(g, a, w)
    ensures StackReach(g, Enter(s, w))
  {
    hide Reach, AllReachActive;
    ReachRefl(g, w);
    forall x | x in s.onStack ensures Reach(g, x, w) {
      StackReachesEntered(g, s, active, w, x);
    }
  }

  lemma EnterActive<V(!new)>(g: Graph<V>, s: Snapshot<V>, active: set<V>, w: V)
    requires Numbered(g, s) && AllReachActive(g, s, active) && w !in s.indices
    ensures AllReachActive(g, Enter(s, w), active + {w})
  {
    hide Reach;
    var t := Enter(s, w);
    ReachRefl(g, w);
    forall y | y in t.onStack ensures ReachesActive(g, t, active + {w}, y) {
      assert y != w ==> ReachesActive(g, s, active, y);
    }
  }

  lemma EnterStep<V(!new)>(g: Graph<V>, s: Snapshot<V>, active: set<V>, w: V)
    requires Inv(g, s, active) && w in g.words && w !in s.indices
    requires forall a :: a in active ==> Reach(g, a, w)
    ensures InVisit(g, s, Enter(s, w), active, w, {})
  {
    hide Reach, Edge, StackReach, AllReachActive, SccsExact, Closed, StackShape, Entered;
    var t := Enter(s, w);
    EnterShape(s, w);
    EnterNumbered(g, s, w);
    EnterReach(g, s, active, w);
    EnterActive(g, s, active, w);
    ReachRefl(g, w);
    assert LowWitness(g, t, w, s.onStack + {w}, t.lowlinks[w]);
  }

  /** Every active word, w included, reaches a callee of w. */
  lemma CalleeReachable<V(!new)>(g: Graph<V>, active: set<V>, w: V, c: V)
    requires Edge(g, w, c)
    requires forall a :: a in active ==> Reach(g, a, w)
    ensures forall a :: a in active + {w} ==> Reach(g, a, c)
  {
    hide Reach, Edge;
    EdgeReach(g, w, c);
    forall a | a in active ensures Reach(g, a, c) {
      ReachTrans(g, a, w, c);
    }
  }

  // ---- Lowering a lowlink ----

  lemma RelaxInv<V(!new)>(g: Graph<V>, t: Snapshot<V>, active: set<V>, w: V, candidate: nat)
    requires Inv(g, t, active) && w in t.lowlinks
    ensures Inv(g, Relax(t, w, candidate), active)
  {
    hide Reach, Edge, SccsExact, Closed, Elements, Distinct, CallsIndexed;
    var u := Relax(t, w, candidate);
    assert u.lowlinks.Keys == t.lowlinks.Keys;
    forall y | y in u.onStack ensures ReachesActive(g, u, active, y) {
      assert ReachesActive(g, t, active, y);
    }
  }

  /** The lowlink meaning looks at indices only. */
  lemma RelaxMeaning<V(!new)>(g: Graph<V>, s: Snapshot<V>, t: Snapshot<V>, w: V, done: set<V>, candidate: nat)
    requires w in t.lowlinks && LowMeaning(g, s, t, w, done, t.lowlinks[w])
    requires candidate < t.lowlinks[w] ==> LowWitness(g, t, w, s.onStack + {w}, candidate)
    ensures LowMeaning(g, s, Relax(t, w, candidate), w, done, Relax(t, w, candidate).lowlinks[w])
  {
    hide Reach, Edge;
    var low := Relax(t, w, candidate).lowlinks[w];
    assert LowWitness(g, t, w, s.onStack + {w}, low);
  }

  lemma RelaxEntered<V(!new)>(g: Graph<V>, s: Snapshot<V>, t: Snapshot<V>, active: set<V>, w: V, candidate: nat)
    requires Inv(g, s, active) && Entered(s, t, w)
    ensures Entered(s, Relax(t, w, candidate), w)
  {
    hide StackShape, Closed, CallsIndexed, StackReach, AllReachActive, SccsExact;
  }

  lemma RelaxStep<V(!new)>(g: Graph<V>, s: Snapshot<V>, t: Snapshot<V>, active: set<V>, w: V, done: set<V>,
                    candidate: nat)
    requires InVisit(g, s, t, active, w, done)
    requires candidate < t.lowlinks[w] ==> LowWitness(g, t, w, s.onStack + {w}, candidate)
    ensures InVisit(g, s, Relax(t, w, candidate), active, w, done)
  {
    hide Inv, LowMeaning, LowWitness, Extends;
    RelaxInv(g, t, active + {w}, w, candidate);
    RelaxMeaning(g, s, t, w, done, candidate);
    RelaxEntered(g, s, t, active, w, candidate);
  }

  // ---- Looking at one callee ----

  /** The callee is still on the stack: take over its index. */
  lemma BackStep<V(!new)>(g: Graph<V>, s: Snapshot<V>, t: Snapshot<V>, active: set<V>, w: V, done: set<V>, c: V)
    requires InVisit(g, s, t, active, w, done) && Edge(g, w, c) && c in t.onStack && c in t.indices
    ensures InVisit(g, s, Relax(t, w, t.indices[c]), active, w, done + {c})
  {
    hide Inv, Reach, Edge, LowWitness, BackCalls, Submap;
    var r := Relax(t, w, t.indices[c]);
    if t.indices[c] < t.lowlinks[w] {
      LowBelow(g, s, t, w, c);
    }
    RelaxStep(g, s, t, active, w, done, t.indices[c]);
  }

  /** An indexed callee of w below w's index is a word of the stack of s. */
  lemma LowBelow<V(!new)>(g: Graph<V>, s: Snapshot<V>, t: Snapshot<V>, w: V, c: V)
    requires Entered(s, t, w) && Edge(g, w, c) && c in t.onStack && c in t.indices && t.indices[c] < t.lowlinks[w]
    ensures LowWitness(g, t, w, s.onStack + {w}, t.indices[c])
  {
    hide Reach, Edge;
    EdgeReach(g, w, c);
    assert c in s.indices;
    assert c in s.onStack by { assert c !in s.Finished() by { assert c !in t.Finished(); } }
  }

  /** The callee belongs to a finished component: nothing to do. */
  lemma DoneStep<V(!new)>(g: Graph<V>, s: Snapshot<V>, t: Snapshot<V>, active: set<V>, w: V, done: set<V>, c: V)
    requires InVisit(g, s, t, active, w, done) && c in t.Finished()
    ensures InVisit(g, s, t, active, w, done + {c})
  {
    hide Inv, Reach, Edge, LowWitness, BackCalls, Submap;
    assert c !in s.onStack;
  }

  /** What is left of the older stack's guarantees after the recursive visit of callee c. */
  lemma ChildEntered<V(!new)>(g: Graph<V>, s: Snapshot<V>, t: Snapshot<V>, u: Snapshot<V>, w: V)
    requires Entered(s, t, w) && Extends(t, u)
    ensures Entered(s, u, w)
  {
    assert u.stack[|s.stack|] == t.stack[|s.stack|];
  }

  lemma ChildBackCalls<V(!new)>(g: Graph<V>, s: Snapshot<V>, t: Snapshot<V>, u: Snapshot<V>, w: V, c: V, low: nat)
    requires Entered(s, t, w) && Extends(t, u)
    requires low <= t.lowlinks[w] && (c in u.lowlinks ==> low <= u.lowlinks[c]) && c in u.lowlinks && c in g.words
    requires Numbered(g, s) && Numbered(g, t)
    requires BackCalls(g, s, t, w, t.lowlinks[w])
    requires BackCalls(g, t, u, c, u.lowlinks[c])
    requires CalleesSeen(g, t, u, c, g.words, u.lowlinks[c])
    ensures BackCalls(g, s, u, w, low)
  {
    forall x, y | x in u.onStack && x !in s.onStack && x != w && y in s.onStack && y in u.indices && Edge(g, x, y)
      ensures low <= u.indices[y]
    {
      assert y in t.onStack && y in t.indices && u.indices[y] == t.indices[y];
    }
  }

  lemma ChildMeaning<V(!new)>(g: Graph<V>, s: Snapshot<V>, t: Snapshot<V>, u: Snapshot<V>, w: V, done: set<V>, c: V)
    requires Entered(s, t, w) && Extends(t, u) && Numbered(g, s) && Numbered(g, t)
    requires LowMeaning(g, s, t, w, done, t.lowlinks[w])
    requires c !in t.indices && c in u.indices && c in u.lowlinks && c in g.words
    requires BackCalls(g, t, u, c, u.lowlinks[c])
    requires CalleesSeen(g, t, u, c, g.words, u.lowlinks[c])
    requires u.lowlinks[c] < u.lowlinks[w] ==> LowWitness(g, u, w, s.onStack + {w}, u.lowlinks[c])
    ensures LowMeaning(g, s, Relax(u, w, u.lowlinks[c]), w, done + {c}, Relax(u, w, u.lowlinks[c]).lowlinks[w])
  {
    hide Reach, Edge;
    var low := Relax(u, w, u.lowlinks[c]).lowlinks[w];
    ChildBackCalls(g, s, t, u, w, c, low);
    assert LowWitness(g, u, w, s.onStack + {w}, low);
  }

  /** The lowlink that the visit of callee c reports, where it matters, belongs to a word below w or to w. */
  lemma ChildLow<V(!new)>(g: Graph<V>, s: Snapshot<V>, t: Snapshot<V>, u: Snapshot<V>, w: V, c: V)
    requires Numbered(g, t) && Entered(s, t, w) && Extends(t, u) && Edge(g, w, c)
    requires c in u.lowlinks && u.lowlinks[c] < u.lowlinks[w]
    requires c in u.onStack ==> LowWitness(g, u, c, t.onStack, u.lowlinks[c])
    requires c !in u.onStack ==> t.indexCounter <= u.lowlinks[c]
    ensures LowWitness(g, u, w, s.onStack + {w}, u.lowlinks[c])
  {
    hide Reach, Edge;
    var y :| y in t.onStack && y in u.indices && u.indices[y] == u.lowlinks[c] && Reach(g, c, y);
    EdgeReach(g, w, c);
    ReachTrans(g, w, c, y);
    assert y in s.indices;
    assert y !in s.Finished() by { assert y !in t.Finished(); }
  }

  /** The callee was unvisited: recurse, then take over its lowlink. */
  lemma ChildStep<V(!new)>(g: Graph<V>, s: Snapshot<V>, t: Snapshot<V>, u: Snapshot<V>, active: set<V>, w: V,
                    done: set<V>, c: V)
    requires InVisit(g, s, t, active, w, done) && Edge(g, w, c) && c !in t.indices
    requires Visited(g, t, u, active + {w}, c)
    ensures w in u.lowlinks && InVisit(g, s, Relax(u, w, u.lowlinks[c]), active, w, done + {c})
  {
    hide Reach, StackShape, Closed, CallsIndexed, StackReach, AllReachActive, SccsExact, Extends, LowMeaning,
      LowWitness, BackCalls, CalleesSeen, Submap;
    ChildEntered(g, s, t, u, w);
    if u.lowlinks[c] < u.lowlinks[w] {
      ChildLow(g, s, t, u, w, c);
    }
    ChildMeaning(g, s, t, u, w, done, c);
    RelaxInv(g, u, active + {w}, w, u.lowlinks[c]);
    RelaxEntered(g, s, u, active, w, u.lowlinks[c]);
  }

  // ---- Leaving a word ----

  /** When every callee has been looked at, only the older active words may call unindexed words. */
  lemma LeaveCallsIndexed<V(!new)>(g: Graph<V>, s: Snapshot<V>, t: Snapshot<V>, active: set<V>, w: V, done: set<V>,
                            low: nat)
    requires CallsIndexed(g, t.indices.Keys, active + {w}) && CalleesSeen(g, s, t, w, done, low)
    requires forall c :: Edge(g, w, c) ==> c in done
    ensures CallsIndexed(g, t.indices.Keys, active)
    ensures CalleesSeen(g, s, t, w, g.words, low)
  {
    hide Edge;
    forall x, y | x in t.indices.Keys && x !in active && Edge(g, x, y) ensures y in t.indices {
      assert x != w ==> x !in active + {w};
    }
  }

  /** A word whose lowlink points below it reaches an older active word. */
  lemma KeptReachesActive<V(!new)>(g: Graph<V>, s: Snapshot<V>, t: Snapshot<V>, active: set<V>, w: V)
    requires Entered(s, t, w) && AllReachActive(g, s, active)
    requires LowWitness(g, t, w, s.onStack + {w}, t.lowlinks[w]) && t.lowlinks[w] < t.indices[w]
    ensures ReachesActive(g, t, active, w)
    ensures LowWitness(g, t, w, s.onStack, t.lowlinks[w])
  {
    hide Reach, Edge;
    var y :| y in s.onStack + {w} && y in t.indices && t.indices[y] == t.lowlinks[w] && Reach(g, w, y);
    assert ReachesActive(g, s, active, y);
    var a :| a in active && a in s.indices && s.indices[a] <= s.indices[y] && Reach(g, y, a);
    ReachTrans(g, w, y, a);
  }

  lemma KeptAllReachActive<V(!new)>(g: Graph<V>, s: Snapshot<V>, t: Snapshot<V>, active: set<V>, w: V)
    requires Entered(s, t, w) && AllReachActive(g, s, active) && AllReachActive(g, t, active + {w})
    requires ReachesActive(g, t, active, w)
    ensures AllReachActive(g, t, active)
  {
    hide Reach, Edge;
    var b :| b in active && b in t.indices && t.indices[b] <= t.indices[w] && Reach(g, w, b);
    forall y | y in t.onStack ensures ReachesActive(g, t, active, y) {
      assert ReachesActive(g, t, active + {w}, y);
      var a :| a in active + {w} && a in t.indices && y in t.indices && t.indices[a] <= t.indices[y] && Reach(g, y, a);
      if a == w { ReachTrans(g, y, w, b); }
    }
  }

  /** All callees seen and the lowlink points below w: w stays on the stack. */
  lemma KeepStep<V(!new)>(g: Graph<V>, s: Snapshot<V>, t: Snapshot<V>, active: set<V>, w: V, done: set<V>)
    requires InVisit(g, s, t, active, w, done) && t.lowlinks[w] != t.indices[w]
    requires forall c :: Edge(g, w, c) ==> c in done
    ensures Visited(g, s, t, active, w)
  {
    hide Reach, Edge, StackShape, Numbered, Closed, CallsIndexed, StackReach, AllReachActive, SccsExact, Extends,
      LowWitness, BackCalls, CalleesSeen, Submap, ReachesActive;
    LeaveCallsIndexed(g, s, t, active, w, done, t.lowlinks[w]);
    KeptReachesActive(g, s, t, active, w);
    KeptAllReachActive(g, s, t, active, w);
  }

  /** What was stacked since s, with every finished word, is closed under calls. */
  lemma ClosedAbove<V(!new)>(g: Graph<V>, s: Snapshot<V>, t: Snapshot<V>, active: set<V>, w: V, low: nat)
    requires Entered(s, t, w) && low == t.indices[w] && Numbered(g, s) && Numbered(g, t)
    requires Closed(g, t.Finished()) && CallsIndexed(g, t.indices.Keys, active) && active <= s.onStack
    requires BackCalls(g, s, t, w, low) && CalleesSeen(g, s, t, w, g.words, low)
    ensures Closed(g, t.indices.Keys - s.onStack)
  {
    assert forall y :: y in s.onStack ==> y in t.indices && t.indices[y] < low;
    forall x, y | x in t.indices.Keys - s.onStack && Edge(g, x, y) ensures y in t.indices.Keys - s.onStack {
      assert x in t.Finished() ==> y in t.Finished();
    }
  }

  /** w and everything stacked since s reach each other. */
  lemma PoppedMutual<V(!new)>(g: Graph<V>, s: Snapshot<V>, t: Snapshot<V>, active: set<V>, w: V, x: V)
    requires Entered(s, t, w) && StackReach(g, t) && AllReachActive(g, t, active + {w}) && Numbered(g, t)
        && Numbered(g, s)
    requires forall a :: a in active ==> Reach(g, a, w)
    requires x in t.onStack && x !in s.onStack
    ensures Mutual(g, w, x)
  {
    hide Reach, Edge;
    assert x !in s.indices by { assert x !in s.Finished() by { assert x !in t.Finished(); } }
    assert ReachesActive(g, t, active + {w}, x);
    var a :| a in active + {w} && Reach(g, x, a);
    if a != w { ReachTrans(g, x, a, w); }
  }

  lemma PoppedIsScc<V(!new)>(g: Graph<V>, finished: set<V>, c: set<V>, w: V)
    requires w in c && c <= g.words && c !! finished
    requires Closed(g, finished) && Closed(g, finished + c)
    requires forall x :: x in c ==> Mutual(g, w, x)
    ensures IsScc(g, c)
  {
    hide Reach, Edge, Closed;
    forall x, y | x in c && y in g.words ensures y in c <==> Mutual(g, x, y) {
      if y in c {
        ReachTrans(g, x, w, y);
        ReachTrans(g, y, w, x);
      }
      if Mutual(g, x, y) {
        ClosedReach(g, finished + c, x, y);
        if y in finished { ClosedReach(g, finished, y, x); }
      }
    }
  }

  lemma PopSccs<V(!new)>(g: Graph<V>, sccs: seq<set<V>>, finished: set<V>, c: set<V>)
    requires SccsExact(g, sccs, finished) && IsScc(g, c) && c !! finished
    ensures SccsExact(g, sccs + [c], finished + c)
  {
    hide IsScc;
    var u := sccs + [c];
    forall x | x in finished + c ensures exists k :: 0 <= k < |u| && x in u[k] {
      if x in finished {
        var k :| 0 <= k < |sccs| && x in sccs[k];
        assert x in u[k];
      } else {
        assert x in u[|sccs|];
      }
    }
  }

  /** Going back to the older stack keeps what held of it. */
  lemma PopStack<V(!new)>(g: Graph<V>, s: Snapshot<V>, t: Snapshot<V>, active: set<V>, w: V)
    requires Inv(g, s, active) && Entered(s, t, w) && Numbered(g, t)
    ensures StackShape(Pop(t, s)) && Numbered(g, Pop(t, s)) && Extends(s, Pop(t, s))
    ensures StackReach(g, Pop(t, s)) && AllReachActive(g, Pop(t, s), active)
  {
    hide Reach, Edge, Closed, CallsIndexed, SccsExact, Distinct, Elements;
    var u := Pop(t, s);
    assert s.stack <= u.stack;
    forall y | y in u.onStack ensures ReachesActive(g, u, active, y) {
      assert ReachesActive(g, s, active, y);
    }
  }

  /** All callees seen and w is its own lowlink: everything stacked since s is popped as one component. */
  lemma PopStep<V(!new)>(g: Graph<V>, s: Snapshot<V>, t: Snapshot<V>, active: set<V>, w: V, done: set<V>)
    requires InVisit(g, s, t, active, w, done) && t.lowlinks[w] == t.indices[w]
    requires forall a :: a in active ==> Reach(g, a, w)
    requires forall c :: Edge(g, w, c) ==> c in done
    ensures Visited(g, s, Pop(t, s), active, w)
  {
    hide Reach, Edge, StackShape, Numbered, Closed, CallsIndexed, StackReach, SccsExact, Extends, LowWitness,
      ReachesActive, Mutual, IsScc;
    var u := Pop(t, s);
    var c := t.onStack - s.onStack;
    LeaveCallsIndexed(g, s, t, active, w, done, t.lowlinks[w]);
    ClosedAbove(g, s, t, active, w, t.lowlinks[w]);
    EnteredSets(g, s, t, w);
    forall x | x in c ensures Mutual(g, w, x) {
      PoppedMutual(g, s, t, active, w, x);
    }
    PoppedIsScc(g, t.Finished(), c, w);
    PopSccs(g, t.sccs, t.Finished(), c);
    PopStack(g, s, t, active, w);
  }

  lemma EnteredSets<V(!new)>(g: Graph<V>, s: Snapshot<V>, t: Snapshot<V>, w: V)
    requires Entered(s, t, w) && Numbered(g, s) && Numbered(g, t)
    ensures var c := t.onStack - s.onStack;
      w in c && c <= g.words && c !! t.Finished()
      && Pop(t, s).Finished() == t.indices.Keys - s.onStack == t.Finished() + c
  {
  }
}
