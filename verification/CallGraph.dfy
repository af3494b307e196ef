/** The call graph of a program and its recursive components
    (crates/compiler/src/call_graph.rs). */
module CallGraph {
  import opened Ast
  import opened Wrappers
  import opened Reachability
  import opened Tarjan

  // ---- Extracting calls ----

  /** The known names called anywhere inside a list of statements: in quotations,
      `if` branches and match arms too. */
  ghost predicate CallsName(statements: seq<Statement>, name: string)
    decreases statements
  {
    exists k :: 0 <= k < |statements| && StatementCalls(statements[k], name)
  }

  ghost predicate StatementCalls(s: Statement, name: string)
    decreases s
  {
    match s
    case WordCall(n, _) => n == name
    case If(t, e, _) => CallsName(t, name) || (e.Else? && CallsName(e.body, name))
    case Quotation(_, body) => CallsName(body, name)
    case Match(arms, _) => exists a :: 0 <= a < |arms| && ArmCalls(arms[a], name)
    case _ => false
  }

  ghost predicate ArmCalls(arm: MatchArm, name: string)
    decreases arm
  {
    CallsName(arm.body, name)
  }

  method ExtractCalls(statements: seq<Statement>, knownWords: set<string>) returns (calls: set<string>)
    ensures forall n :: n in calls <==> n in knownWords && CallsName(statements, n)
  {
    calls := ExtractEach(statements, knownWords, {});
  }

  /** `calls` plays the mutable set that is passed along. */
  method ExtractEach(statements: seq<Statement>, knownWords: set<string>,
                     calls0: set<string>) returns (calls: set<string>)
    ensures forall n :: n in calls <==> n in calls0 || (n in knownWords && CallsName(statements, n))
    decreases statements, 1
  {
    calls := calls0;
    for k := 0 to |statements|
      invariant forall n :: n in calls <==>
                  n in calls0 || (n in knownWords && exists j :: 0 <= j < k && StatementCalls(statements[j], n))
    {
      calls := ExtractFromStatement(statements[k], knownWords, calls);
    }
  }

  method ExtractFromStatement(s: Statement, knownWords: set<string>, calls0: set<string>) returns (calls: set<string>)
    ensures forall n :: n in calls <==> n in calls0 || (n in knownWords && StatementCalls(s, n))
    decreases s, 0
  {
    calls := calls0;
    match s
    case WordCall(name, _) =>
      if name in knownWords { calls := calls + {name}; }
    case If(t, e, _) =>
      calls := ExtractEach(t, knownWords, calls);
      if e.Else? { calls := ExtractEach(e.body, knownWords, calls); }
    case Quotation(_, body) =>
      calls := ExtractEach(body, knownWords, calls);
    case Match(arms, _) =>
      for a := 0 to |arms|
        invariant forall n :: n in calls <==>
                    n in calls0 || (n in knownWords && exists b :: 0 <= b < a && ArmCalls(arms[b], n))
      {
        assert arms[a] < s;
        calls := ExtractEach(arms[a].body, knownWords, calls);
      }
    case _ =>
  }

  // ---- Tarjan's visit ----

  class TarjanState<V(!new,==)> {
    var indexCounter: nat
    var stack: seq<V>
    var onStack: set<V>
    var indices: map<V, nat>
    var lowlinks: map<V, nat>
    var sccs: seq<set<V>>

    function Value(): Snapshot<V>
      reads this
    {
      Snapshot(indexCounter, stack, onStack, indices, lowlinks, sccs)
    }

    constructor ()
      ensures Value() == Snapshot(0, [], {}, map[], map[], [])
    {
      indexCounter, stack, onStack, indices, lowlinks, sccs := 0, [], {}, map[], map[], [];
    }

    method RelaxLowlink(word: V, candidate: nat)
      requires word in lowlinks
      modifies this
      ensures Value() == Relax(old(Value()), word, candidate)
    {
      lowlinks := lowlinks[word := if candidate < lowlinks[word] then candidate else lowlinks[word]];
    }

    /** Pops the stack down to and including `word`, which stands at position n. */
    method PopComponent(word: V, ghost n: nat) returns (scc: set<V>)
      requires n < |stack| && stack[n] == word && StackShape(Value())
      modifies this`stack, this`onStack
      ensures stack == old(stack[..n])
      ensures onStack == Elements(stack)
      ensures scc == old(onStack) - onStack
    {
      ghost var all := stack;
      ghost var k := |stack|;
      scc := {};
      while true
        invariant n < k <= |all| && stack == all[..k]
        invariant onStack == Elements(all[..k])
        invariant scc == Elements(all[k..]) && scc !! onStack && scc + onStack == Elements(all)
        decreases |stack|
      {
        var w := stack[|stack| - 1];
        PoppedSets(all, k);
        k := k - 1;
        stack := stack[..|stack| - 1];
        onStack := onStack - {w};
        scc := scc + {w};
        if w == word { break; }
      }
      assert k == n;
    }
  }

  lemma PoppedSets<V(!new)>(all: seq<V>, k: nat)
    requires Distinct(all) && 0 < k <= |all|
    ensures all[k - 1] !in all[..k - 1]
    ensures Elements(all[..k]) == Elements(all[..k - 1]) + {all[k - 1]}
    ensures Elements(all[k - 1..]) == Elements(all[k..]) + {all[k - 1]}
  {
    assert all[..k] == all[..k - 1] + [all[k - 1]];
    assert all[k - 1..] == [all[k - 1]] + all[k..];
    assert forall x :: x in all[..k] <==> x in all[..k - 1] || x == all[k - 1];
    assert forall x :: x in all[k - 1..] <==> x in all[k..] || x == all[k - 1];
  }

  lemma EnteredFacts<V(!new)>(g: Graph<V>, s: Snapshot<V>, t: Snapshot<V>, active: set<V>, w: V, done: set<V>)
    requires InVisit(g, s, t, active, w, done)
    ensures StackShape(t) && StackShape(s) && s.stack <= t.stack && |s.stack| < |t.stack| && t.stack[|s.stack|] == w
    ensures w in t.lowlinks && w in t.indices && w !in s.indices && s.indices.Keys <= t.indices.Keys
    ensures t.onStack <= t.indices.Keys
  {
    hide Reach, Edge, Closed, CallsIndexed, StackReach, AllReachActive, SccsExact, LowMeaning, Distinct, Elements;
  }

  lemma SkipStep<V(!new)>(g: Graph<V>, s: Snapshot<V>, t: Snapshot<V>, active: set<V>, w: V, done: set<V>, c: V)
    requires InVisit(g, s, t, active, w, done) && c !in g.words
    ensures InVisit(g, s, t, active, w, done + {c})
  {
    hide Inv, Reach, LowWitness, BackCalls, Entered;
  }

  /** A recursive visit keeps the domain facts that the caller looks up. */
  lemma VisitedFacts<V(!new)>(g: Graph<V>, s: Snapshot<V>, t: Snapshot<V>, active: set<V>, w: V)
    requires Visited(g, s, t, active, w)
    ensures w in t.lowlinks && w in t.indices && s.indices.Keys <= t.indices.Keys
  {
    hide Inv, LowWitness, BackCalls, CalleesSeen;
  }

  method TarjanVisit<V(!new,==)>(g: Graph<V>, word: V, state: TarjanState<V>, ghost active: set<V>)
    requires Inv(g, state.Value(), active) && word in g.words && word !in state.indices
    requires forall a :: a in active ==> Reach(g, a, word)
    modifies state
    ensures Visited(g, old(state.Value()), state.Value(), active, word)
    decreases g.words - state.indices.Keys
  {
    hide Inv, InVisit, Visited, Reach, StackShape, Elements;
    ghost var s := state.Value();
    var index := state.indexCounter;
    state.indexCounter := state.indexCounter + 1;
    state.indices := state.indices[word := index];
    state.lowlinks := state.lowlinks[word := index];
    state.stack := state.stack + [word];
    state.onStack := state.onStack + {word};
    EnterStep(g, s, active, word);
    ghost var done := {};
    if word in g.edges {
      var todo := g.edges[word];
      while todo != {}
        invariant todo <= g.edges[word] && done == g.edges[word] - todo
        invariant InVisit(g, s, state.Value(), active, word, done)
        decreases todo
      {
        var callee :| callee in todo;
        todo := todo - {callee};
        ghost var t := state.Value();
        EnteredFacts(g, s, t, active, word, done);
        if callee !in g.words {
          SkipStep(g, s, t, active, word, done, callee);
        } else if callee !in state.indices {
          CalleeReachable(g, active, word, callee);
          InVisitInv(g, s, t, active, word, done);
          TarjanVisit(g, callee, state, active + {word});
          VisitedFacts(g, t, state.Value(), active + {word}, callee);
          ChildStep(g, s, t, state.Value(), active, word, done, callee);
          state.RelaxLowlink(word, state.lowlinks[callee]);
        } else if callee in state.onStack {
          BackStep(g, s, t, active, word, done, callee);
          state.RelaxLowlink(word, state.indices[callee]);
        } else {
          DoneStep(g, s, t, active, word, done, callee);
        }
        done := done + {callee};
      }
    }
    ghost var t := state.Value();
    EnteredFacts(g, s, t, active, word, done);
    if state.lowlinks[word] == state.indices[word] {
      var scc := state.PopComponent(word, |s.stack|);
      state.sccs := state.sccs + [scc];
      PopStep(g, s, t, active, word, done);
      PopIsPop(s, t, state.Value(), scc);
    } else {
      KeepStep(g, s, t, active, word, done);
    }
  }

  lemma InVisitInv<V(!new)>(g: Graph<V>, s: Snapshot<V>, t: Snapshot<V>, active: set<V>, w: V, done: set<V>)
    requires InVisit(g, s, t, active, w, done)
    ensures Inv(g, t, active + {w})
  {
    hide Inv, Entered, LowMeaning;
  }

  lemma PopIsPop<V(!new)>(s: Snapshot<V>, t: Snapshot<V>, u: Snapshot<V>, scc: set<V>)
    requires StackShape(s) && s.stack <= t.stack
    requires u == t.(stack := t.stack[..|s.stack|], onStack := Elements(t.stack[..|s.stack|]), sccs := t.sccs + [scc])
    requires scc == t.onStack - u.onStack
    ensures u == Pop(t, s)
  {
    assert t.stack[..|s.stack|] == s.stack;
  }

  // ---- All components, and the recursive ones ----

  /** Disjoint whole components that together hold every word. */
  ghost predicate Partition<V(!new)>(g: Graph<V>, sccs: seq<set<V>>) {
    SccsExact(g, sccs, g.words)
  }

  lemma StartInv<V(!new)>(g: Graph<V>)
    ensures Inv(g, Snapshot(0, [], {}, map[], map[], []), {})
  {
    hide Reach, Edge, IsScc;
  }

  lemma FinishedInv<V(!new)>(g: Graph<V>, t: Snapshot<V>)
    requires Inv(g, t, {})
    ensures t.Finished() == t.indices.Keys && SccsExact(g, t.sccs, t.indices.Keys)
  {
    hide Reach, Edge, StackReach, SccsExact, Closed, CallsIndexed;
    forall x ensures x !in t.onStack {
      assert x in t.onStack ==> ReachesActive(g, t, {}, x);
    }
  }

  /** The visiting loop of `find_sccs`. */
  method AllSccs<V(!new,==)>(g: Graph<V>) returns (sccs: seq<set<V>>)
    ensures Partition(g, sccs)
  {
    hide Inv, Reach, Edge, IsScc, SccsExact, Visited;
    var state := new TarjanState<V>();
    StartInv(g);
    var todo := g.words;
    while todo != {}
      invariant todo <= g.words && g.words - todo <= state.indices.Keys
      invariant Inv(g, state.Value(), {})
      decreases todo
    {
      var word :| word in todo;
      todo := todo - {word};
      if word !in state.indices {
        ghost var s := state.Value();
        TarjanVisit(g, word, state, {});
        VisitedFacts(g, s, state.Value(), {}, word);
        VisitedInv(g, s, state.Value(), {}, word);
      }
    }
    FinishedInv(g, state.Value());
    InvIndexed(g, state.Value());
    assert state.indices.Keys == g.words;
    sccs := state.sccs;
  }

  lemma VisitedInv<V(!new)>(g: Graph<V>, s: Snapshot<V>, t: Snapshot<V>, active: set<V>, w: V)
    requires Visited(g, s, t, active, w)
    ensures Inv(g, t, active)
  {
    hide Inv, LowWitness, BackCalls, CalleesSeen, Extends;
  }

  lemma InvIndexed<V(!new)>(g: Graph<V>, t: Snapshot<V>)
    requires Inv(g, t, {})
    ensures t.indices.Keys <= g.words
  {
    hide Reach, Edge, StackReach, SccsExact, Closed, CallsIndexed, StackShape, AllReachActive;
  }

  predicate HasSelfCall<V(!new,==)>(g: Graph<V>, w: V) {
    w in g.edges && w in g.edges[w]
  }

  /** Some member of the component can come back to itself by calling. */
  ghost predicate Recursive<V(!new)>(g: Graph<V>, c: set<V>) {
    exists x :: x in c && Calls(g, x, x)
  }

  /** Membership in `r` is exactly being a component of `all` that is recursive. */
  ghost predicate RecursiveOnes<V(!new)>(g: Graph<V>, all: seq<set<V>>, r: seq<set<V>>) {
    && (forall c :: c in r <==> c in all && Recursive(g, c))
    && (forall k, l :: 0 <= k < l < |r| ==> r[k] !! r[l])
  }

  lemma ManyIsRecursive<V(!new)>(g: Graph<V>, c: set<V>)
    requires IsScc(g, c) && |c| > 1
    ensures Recursive(g, c)
  {
    hide Reach, Edge;
    var x :| x in c;
    assert |c - {x}| > 0;
    var y :| y in c - {x};
    assert Mutual(g, x, y);
    DistinctReachCalls(g, x, y);
    CallsTrans(g, x, y, x);
  }

  lemma CallsTrans<V(!new)>(g: Graph<V>, x: V, y: V, z: V)
    requires Calls(g, x, y) && Reach(g, y, z)
    ensures Calls(g, x, z)
  {
    hide Reach, Edge;
    var u :| Edge(g, x, u) && Reach(g, u, y);
    ReachTrans(g, u, y, z);
  }

  lemma SingleIsRecursive<V(!new)>(g: Graph<V>, w: V)
    requires IsScc(g, {w})
    ensures Recursive(g, {w}) <==> HasSelfCall(g, w)
  {
    hide Reach;
    if HasSelfCall(g, w) {
      ReachRefl(g, w);
      assert Edge(g, w, w);
      assert Calls(g, w, w);
    }
    if Recursive(g, {w}) {
      var x :| x in {w} && Calls(g, x, x);
      var z :| Edge(g, w, z) && Reach(g, z, w);
      EdgeReach(g, w, z);
      assert Mutual(g, w, z);
    }
  }

  /** The filter that ends `find_sccs`. */
  method KeepRecursive<V(!new,==)>(g: Graph<V>, all: seq<set<V>>) returns (r: seq<set<V>>)
    requires Partition(g, all)
    ensures RecursiveOnes(g, all, r)
  {
    hide IsScc, Recursive, Reach, Edge;
    r := [];
    for k := 0 to |all|
      invariant forall c :: c in r <==> c in all[..k] && Recursive(g, c)
      invariant forall i, j :: 0 <= i < j < |r| ==> r[i] !! r[j]
    {
      var scc := all[k];
      assert all[..k + 1] == all[..k] + [scc];
      var keep;
      if |scc| > 1 {
        ManyIsRecursive(g, scc);
        keep := true;
      } else if |scc| == 1 {
        var word :| word in scc;
        SingletonSet(scc, word);
        SingleIsRecursive(g, word);
        keep := HasSelfCall(g, word);
      } else {
        NonEmptyScc(g, scc);
        keep := false;
      }
      if keep {
        forall i | 0 <= i < |r| ensures r[i] !! scc {
          assert r[i] in all[..k];
        }
        r := r + [scc];
      }
    }
    assert all[..|all|] == all;
  }

  lemma SingletonSet<V(!new)>(s: set<V>, x: V)
    requires |s| == 1 && x in s
    ensures s == {x}
  {
    assert |s - {x}| == 0;
  }

  lemma NonEmptyScc<V(!new)>(g: Graph<V>, c: set<V>)
    requires IsScc(g, c)
    ensures |c| > 0
  {
    hide Reach;
  }

  /** `find_sccs`: exactly the components some member of which can come back to itself. */
  method FindSccs<V(!new,==)>(g: Graph<V>) returns (r: seq<set<V>>)
    ensures forall c :: c in r <==> IsScc(g, c) && Recursive(g, c)
    ensures forall k, l :: 0 <= k < l < |r| ==> r[k] !! r[l]
  {
    hide IsScc, Recursive, Reach, Edge, SccsExact;
    var all := AllSccs(g);
    r := KeepRecursive(g, all);
    forall c ensures c in all <==> IsScc(g, c) {
      PartitionHasAllSccs(g, all, c);
    }
  }

  lemma PartitionHasAllSccs<V(!new)>(g: Graph<V>, all: seq<set<V>>, c: set<V>)
    requires Partition(g, all)
    ensures c in all <==> IsScc(g, c)
  {
    hide Reach, Edge;
    if IsScc(g, c) {
      var x :| x in c;
      var k :| 0 <= k < |all| && x in all[k];
      assert all[k] == c by {
        forall y ensures y in all[k] <==> y in c {
          assert y in g.words ==> (y in c <==> Mutual(g, x, y));
          assert y in g.words ==> (y in all[k] <==> Mutual(g, x, y));
        }
      }
    }
  }

  // ---- The graph of a program ----

  datatype CallGraph = CallGraph(edges: map<string, set<string>>, words: set<string>, recursiveSccs: seq<set<string>>)
  {
    function AsGraph(): Graph<string> {
      Graph(words, edges)
    }

    predicate IsRecursive(word: string) {
      exists scc :: scc in recursiveSccs && word in scc
    }

    predicate IsSelfRecursive(word: string) {
      word in edges && word in edges[word]
    }

    predicate AreMutuallyRecursive(word1: string, word2: string) {
      exists scc :: scc in recursiveSccs && word1 in scc && word2 in scc
    }

    function Callees(word: string): Option<set<string>> {
      if word in edges then Some(edges[word]) else None
    }

    /** What `build` establishes. */
    ghost predicate Exact() {
      && edges.Keys == words
      && (forall w :: w in edges ==> edges[w] <= words)
      && (forall c :: c in recursiveSccs <==> IsScc(AsGraph(), c) && Recursive(AsGraph(), c))
      && (forall k, l :: 0 <= k < l < |recursiveSccs| ==> recursiveSccs[k] !! recursiveSccs[l])
    }
  }

  /** The calls of each name's last definition, among the names of the program. */
  ghost function EdgesOf(words: seq<WordDef>, names: set<string>): map<string, set<string>>
    decreases |words|
  {
    if |words| == 0 then map[]
    else
      var last := words[|words| - 1];
      EdgesOf(words[..|words| - 1], names)[last.name := CalleesOf(last.body, names)]
  }

  ghost function CalleesOf(body: seq<Statement>, names: set<string>): set<string> {
    set n | n in names && CallsName(body, n)
  }

  ghost function GraphOf(p: Program): Graph<string> {
    Graph(p.Names(), EdgesOf(p.words, p.Names()))
  }

  method Build(p: Program) returns (graph: CallGraph)
    ensures graph.Exact() && graph.AsGraph() == GraphOf(p)
  {
    hide CallsName, IsScc, Recursive;
    var edges: map<string, set<string>> := map[];
    var words := p.Names();
    for k := 0 to |p.words|
      invariant edges == EdgesOf(p.words[..k], words)
    {
      var callees := ExtractCalls(p.words[k].body, words);
      EdgesStep(p.words, k, words);
      assert callees == CalleesOf(p.words[k].body, words);
      edges := edges[p.words[k].name := callees];
    }
    assert p.words[..|p.words|] == p.words;
    EdgesInWords(p.words, words);
    var g := Graph(words, edges);
    var sccs := FindSccs(g);
    graph := CallGraph(edges, words, sccs);
  }

  lemma EdgesStep(words: seq<WordDef>, k: nat, names: set<string>)
    requires k < |words|
    ensures EdgesOf(words[..k + 1], names)
            == EdgesOf(words[..k], names)[words[k].name := CalleesOf(words[k].body, names)]
  {
    hide CallsName;
    assert words[..k + 1][..k] == words[..k];
  }

  lemma {:induction false} EdgesInWords(words: seq<WordDef>, names: set<string>)
    ensures EdgesOf(words, names).Keys == set w | w in words :: w.name
    ensures forall w :: w in EdgesOf(words, names) ==> EdgesOf(words, names)[w] <= names
    decreases |words|
  {
    hide CallsName;
    if |words| > 0 {
      var front := words[..|words| - 1];
      EdgesInWords(front, names);
      assert words == front + [words[|words| - 1]];
      assert forall w :: w in words <==> w in front || w == words[|words| - 1];
    }
  }

  /** With one definition per name, a name's callees are exactly the words its body calls. */
  lemma {:induction false} EdgeIsCall(words: seq<WordDef>, names: set<string>, k: nat, n: string)
    requires k < |words| && forall j :: k < j < |words| ==> words[j].name != words[k].name
    ensures words[k].name in EdgesOf(words, names)
    ensures n in EdgesOf(words, names)[words[k].name] <==> n in names && CallsName(words[k].body, n)
    decreases |words|
  {
    hide CallsName;
    if k < |words| - 1 { EdgeIsCall(words[..|words| - 1], names, k, n); }
  }

  lemma CallsInWords<V(!new)>(g: Graph<V>, x: V, y: V)
    requires Calls(g, x, y)
    ensures y in g.words
  {
    var z :| Edge(g, x, z) && Reach(g, z, y);
    var p :| IsPath(g, p) && p[0] == z && p[|p| - 1] == y;
    if |p| > 1 { assert Edge(g, p[|p| - 2], p[|p| - 1]); }
  }

  /** The class of a word under mutual reachability. */
  ghost function Class<V(!new)>(g: Graph<V>, x: V): set<V> {
    set y | y in g.words && Mutual(g, x, y)
  }

  lemma ClassIsScc<V(!new)>(g: Graph<V>, x: V)
    requires x in g.words
    ensures x in Class(g, x) && IsScc(g, Class(g, x))
  {
    hide Reach, Edge;
    ReachRefl(g, x);
    var c := Class(g, x);
    forall y, z | y in c && z in g.words ensures z in c <==> Mutual(g, y, z) {
      if z in c { ReachTrans(g, y, x, z); ReachTrans(g, z, x, y); }
      if Mutual(g, y, z) { ReachTrans(g, x, y, z); ReachTrans(g, z, y, x); }
    }
  }

  /** Members of a recursive component call each other along nonempty paths. */
  lemma RecursiveSccCalls<V(!new)>(g: Graph<V>, c: set<V>, a: V, b: V)
    requires IsScc(g, c) && Recursive(g, c) && a in c && b in c
    ensures Calls(g, a, b)
  {
    hide Reach, Edge;
    var x :| x in c && Calls(g, x, x);
    assert Mutual(g, a, x) && Mutual(g, x, b);
    if a == x {
      CallsTrans(g, x, x, b);
    } else {
      DistinctReachCalls(g, a, x);
      CallsTrans(g, a, x, b);
    }
  }

  /** Two words are reported mutually recursive exactly when each calls the other along a nonempty path. */
  lemma MutualRecursionIsExact(graph: CallGraph, a: string, b: string)
    requires graph.Exact()
    ensures graph.AreMutuallyRecursive(a, b) <==> Calls(graph.AsGraph(), a, b) && Calls(graph.AsGraph(), b, a)
  {
    hide Reach, Edge, Calls, IsScc, Recursive, Class;
    var g := graph.AsGraph();
    if graph.AreMutuallyRecursive(a, b) {
      var scc :| scc in graph.recursiveSccs && a in scc && b in scc;
      RecursiveSccCalls(g, scc, a, b);
      RecursiveSccCalls(g, scc, b, a);
    }
    if Calls(g, a, b) && Calls(g, b, a) {
      CallsShareClass(g, a, b);
      assert Class(g, a) in graph.recursiveSccs;
    }
  }

  lemma CallsShareClass<V(!new)>(g: Graph<V>, a: V, b: V)
    requires Calls(g, a, b) && Calls(g, b, a)
    ensures IsScc(g, Class(g, a)) && Recursive(g, Class(g, a)) && a in Class(g, a) && b in Class(g, a)
  {
    hide Reach, Edge, IsScc;
    CallsInWords(g, a, b);
    CallsInWords(g, b, a);
    CallsReach(g, a, b);
    CallsReach(g, b, a);
    ClassIsScc(g, a);
    CallsTrans(g, a, b, a);
  }

  /** A word is reported recursive exactly when it has a nonempty call path to itself. */
  lemma RecursionIsExact(graph: CallGraph, w: string)
    requires graph.Exact()
    ensures graph.IsRecursive(w) <==> Calls(graph.AsGraph(), w, w)
  {
    hide Calls, IsScc, Recursive;
    MutualRecursionIsExact(graph, w, w);
    assert graph.IsRecursive(w) <==> graph.AreMutuallyRecursive(w, w);
  }
}
