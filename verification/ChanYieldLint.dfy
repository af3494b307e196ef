/** The `chan.yield` reachability lint (crates/compiler/src/chan_yield_lint.rs). */
module ChanYieldLint {
  import opened Ast
  import opened Wrappers
  import opened Reachability
  import opened CallGraph

  predicate IsSpawnOrWeave(name: string) {
    name == "strand.spawn" || name == "strand.weave"
  }

  // ---- What the walkers look for ----

  /** A spawn or weave call anywhere inside. */
  ghost predicate Spawns(s: seq<Statement>)
    decreases s
  {
    exists k :: 0 <= k < |s| && StatementSpawns(s[k])
  }

  ghost predicate StatementSpawns(s: Statement)
    decreases s
  {
    match s
    case WordCall(n, _) => IsSpawnOrWeave(n)
    case If(t, e, _) => Spawns(t) || (e.Else? && Spawns(e.body))
    case Quotation(_, body) => Spawns(body)
    case Match(arms, _) => exists a :: 0 <= a < |arms| && ArmSpawns(arms[a])
    case _ => false
  }

  ghost predicate ArmSpawns(arm: MatchArm)
    decreases arm
  {
    Spawns(arm.body)
  }

  /** The statement is a literal quotation that calls `name`. */
  ghost predicate QuotedCall(s: Option<Statement>, name: string) {
    s.Some? && s.value.Quotation? && CallsName(s.value.body, name)
  }

  function Before(previous: Option<Statement>, s: seq<Statement>, k: nat): Option<Statement>
    requires k < |s|
  {
    if k == 0 then previous else Some(s[k - 1])
  }

  /** Some spawn or weave inside follows directly on a literal quotation that calls
      `name`; `previous` is the statement before the list. */
  ghost predicate SeedsAfter(previous: Option<Statement>, s: seq<Statement>, name: string)
    decreases s
  {
    exists k :: 0 <= k < |s| && StatementSeeds(Before(previous, s, k), s[k], name)
  }

  ghost predicate StatementSeeds(previous: Option<Statement>, s: Statement, name: string)
    decreases s
  {
    match s
    case WordCall(n, _) => IsSpawnOrWeave(n) && QuotedCall(previous, name)
    case If(t, e, _) => SeedsAfter(None, t, name) || (e.Else? && SeedsAfter(None, e.body, name))
    case Quotation(_, body) => SeedsAfter(None, body, name)
    case Match(arms, _) => exists a :: 0 <= a < |arms| && ArmSeeds(arms[a], name)
    case _ => false
  }

  ghost predicate ArmSeeds(arm: MatchArm, name: string)
    decreases arm
  {
    SeedsAfter(None, arm.body, name)
  }

  /** A root of the cooperative set: a word that spawns, or one called from a spawned literal quotation. */
  ghost predicate Seed(p: Program, name: string) {
    || (exists k :: 0 <= k < |p.words| && p.words[k].name == name && Spawns(p.words[k].body))
    || (name in p.Names() && exists k :: 0 <= k < |p.words| && SeedsAfter(None, p.words[k].body, name))
  }

  /** Reachable from a root by calls. */
  ghost predicate Cooperative(p: Program, g: Graph<string>, name: string) {
    exists s :: Seed(p, s) && Reach(g, s, name)
  }

  /** The spans of the `chan.yield` calls, in source order. */
  function Sites(s: seq<Statement>): seq<Option<Span>>
    decreases s
  {
    if |s| == 0 then [] else StatementSites(s[0]) + Sites(s[1..])
  }

  function StatementSites(s: Statement): seq<Option<Span>>
    decreases s
  {
    match s
    case WordCall(n, span) => if n == "chan.yield" then [span] else []
    case If(t, e, _) => Sites(t) + (if e.Else? then Sites(e.body) else [])
    case Quotation(_, body) => Sites(body)
    case Match(arms, _) => ArmSites(arms)
    case _ => []
  }

  function ArmSites(arms: seq<MatchArm>): seq<Option<Span>>
    decreases arms
  {
    if |arms| == 0 then [] else OneArmSites(arms[0]) + ArmSites(arms[1..])
  }

  function OneArmSites(arm: MatchArm): seq<Option<Span>>
    decreases arm
  {
    Sites(arm.body)
  }

  // ---- The walkers ----

  method ScanForSeeds(s: seq<Statement>, userWords: set<string>, seeds0: set<string>, spawner0: bool)
    returns (seeds: set<string>, spawner: bool)
    ensures spawner <==> spawner0 || Spawns(s)
    ensures forall n :: n in seeds <==> n in seeds0 || (n in userWords && SeedsAfter(None, s, n))
    decreases s
  {
    hide CallsName;
    seeds, spawner := seeds0, spawner0;
    for i := 0 to |s|
      invariant spawner <==> spawner0 || exists k :: 0 <= k < i && StatementSpawns(s[k])
      invariant forall n :: n in seeds <==>
                  || n in seeds0
                  || (n in userWords && exists k :: 0 <= k < i && StatementSeeds(Before(None, s, k), s[k], n))
    {
      seeds, spawner := ScanStatement(Before(None, s, i), s[i], userWords, seeds, spawner);
    }
  }

  method ScanStatement(previous: Option<Statement>, s: Statement, userWords: set<string>, seeds0: set<string>,
                       spawner0: bool)
    returns (seeds: set<string>, spawner: bool)
    ensures spawner <==> spawner0 || StatementSpawns(s)
    ensures forall n :: n in seeds <==> n in seeds0 || (n in userWords && StatementSeeds(previous, s, n))
    decreases s
  {
    hide CallsName, Spawns, SeedsAfter;
    seeds, spawner := seeds0, spawner0;
    match s
    case WordCall(name, _) =>
      if IsSpawnOrWeave(name) {
        spawner := true;
        if previous.Some? && previous.value.Quotation? {
          // collect_user_word_calls walks as the call extraction does
          seeds := ExtractEach(previous.value.body, userWords, seeds);
        }
      }
    case If(t, e, _) =>
      seeds, spawner := ScanForSeeds(t, userWords, seeds, spawner);
      if e.Else? { seeds, spawner := ScanForSeeds(e.body, userWords, seeds, spawner); }
    case Quotation(_, body) =>
      seeds, spawner := ScanForSeeds(body, userWords, seeds, spawner);
    case Match(arms, _) =>
      for a := 0 to |arms|
        invariant spawner <==> spawner0 || exists b :: 0 <= b < a && ArmSpawns(arms[b])
        invariant forall n :: n in seeds <==>
                    n in seeds0 || (n in userWords && exists b :: 0 <= b < a && ArmSeeds(arms[b], n))
      {
        assert arms[a] < s;
        seeds, spawner := ScanForSeeds(arms[a].body, userWords, seeds, spawner);
      }
    case _ =>
  }

  method CollectChanYieldSites(s: seq<Statement>, out0: seq<Option<Span>>) returns (out: seq<Option<Span>>)
    ensures out == out0 + Sites(s)
    decreases s
  {
    hide StatementSites;
    out := out0;
    for i := 0 to |s|
      invariant out + Sites(s[i..]) == out0 + Sites(s)
    {
      assert s[i..][0] == s[i] && s[i..][1..] == s[i + 1..];
      out := CollectFromStatement(s[i], out);
    }
    assert Sites(s[|s|..]) == [];
  }

  method CollectFromStatement(s: Statement, out0: seq<Option<Span>>) returns (out: seq<Option<Span>>)
    ensures out == out0 + StatementSites(s)
    decreases s
  {
    hide Sites;
    out := out0;
    match s
    case WordCall(name, span) =>
      if name == "chan.yield" { out := out + [span]; }
    case If(t, e, _) =>
      out := CollectChanYieldSites(t, out);
      if e.Else? { out := CollectChanYieldSites(e.body, out); }
    case Quotation(_, body) =>
      out := CollectChanYieldSites(body, out);
    case Match(arms, _) =>
      for a := 0 to |arms|
        invariant out + ArmSites(arms[a..]) == out0 + ArmSites(arms)
      {
        assert arms[a] < s;
        assert arms[a..][0] == arms[a] && arms[a..][1..] == arms[a + 1..];
        out := CollectChanYieldSites(arms[a].body, out);
      }
      assert ArmSites(arms[|arms|..]) == [];
    case _ =>
  }

  // ---- The cooperative set ----

  method CollectSeeds(p: Program) returns (seeds: set<string>)
    ensures forall n :: n in seeds <==> Seed(p, n)
  {
    hide Spawns, SeedsAfter;
    var userWords := p.Names();
    seeds := {};
    for k := 0 to |p.words|
      invariant forall n :: n in seeds <==>
                  || (exists j :: 0 <= j < k && p.words[j].name == n && Spawns(p.words[j].body))
                  || (n in userWords && exists j :: 0 <= j < k && SeedsAfter(None, p.words[j].body, n))
    {
      var spawner;
      seeds, spawner := ScanForSeeds(p.words[k].body, userWords, seeds, false);
      if spawner { seeds := seeds + {p.words[k].name}; }
    }
  }

  /** The worklist: everything in `coop` or waiting in `frontier` is cooperative, every root is in
      one of them, and every call out of `coop` stays in one of them. */
  ghost predicate Worklist(p: Program, g: Graph<string>, coop: set<string>, frontier: seq<string>) {
    && coop <= g.words
    && (forall x :: x in frontier ==> x in g.words && Cooperative(p, g, x))
    && (forall x :: x in coop ==> Cooperative(p, g, x))
    && (forall s :: Seed(p, s) ==> s in coop || s in frontier)
    && (forall x, y :: x in coop && Edge(g, x, y) ==> y in coop || y in frontier)
  }

  /** `cooperative_set`: exactly the words reachable from the roots. */
  method CooperativeSet(p: Program, graph: CallGraph) returns (coop: set<string>)
    requires graph.Exact() && graph.words == p.Names()
    ensures forall n :: n in coop <==> Cooperative(p, graph.AsGraph(), n)
  {
    hide Worklist, Cooperative, Seed, Edge, Reach, CallGraph.Exact;
    ghost var g := graph.AsGraph();
    var seeds := CollectSeeds(p);
    coop := {};
    var frontier := ToSequence(seeds);
    SeedsStart(p, g, frontier);
    while |frontier| > 0
      invariant Worklist(p, g, coop, frontier)
      decreases g.words - coop, |frontier|
    {
      var w := frontier[|frontier| - 1];
      ghost var waiting := frontier;
      frontier := frontier[..|frontier| - 1];
      assert waiting == frontier + [w];
      if w in coop {
        SkipStep(p, g, coop, waiting, w, frontier);
      } else {
        FrontierKnown(p, g, coop, waiting, w, frontier);
        ghost var coop0 := coop;
        coop := coop + {w};
        ghost var rest := frontier;
        var callees := graph.Callees(w);
        if callees.Some? {
          frontier := PushCallees(callees.value, coop, frontier);
        }
        TakeStep(p, graph, coop0, coop, waiting, w, rest, frontier);
      }
    }
    WorklistDone(p, g, coop);
  }

  method PushCallees(callees: set<string>, coop: set<string>, frontier0: seq<string>) returns (frontier: seq<string>)
    ensures frontier0 <= frontier
    ensures forall x :: x in frontier ==> x in frontier0 || x in callees
    ensures forall c :: c in callees ==> c in coop || c in frontier
  {
    frontier := frontier0;
    var todo := callees;
    while todo != {}
      invariant todo <= callees && frontier0 <= frontier
      invariant forall x :: x in frontier ==> x in frontier0 || x in callees
      invariant forall c :: c in callees - todo ==> c in coop || c in frontier
      decreases todo
    {
      var callee :| callee in todo;
      todo := todo - {callee};
      if callee !in coop { frontier := frontier + [callee]; }
    }
  }

  method ToSequence(s: set<string>) returns (r: seq<string>)
    ensures forall x :: x in r <==> x in s
  {
    r := [];
    var todo := s;
    while todo != {}
      invariant todo <= s && forall x :: x in r <==> x in s - todo
      decreases todo
    {
      var x :| x in todo;
      todo := todo - {x};
      r := r + [x];
    }
  }

  lemma SeedsStart(p: Program, g: Graph<string>, frontier: seq<string>)
    requires g.words == p.Names()
    requires forall n :: n in frontier <==> Seed(p, n)
    ensures Worklist(p, g, {}, frontier)
  {
    hide Reach, Spawns, SeedsAfter;
    forall x | x in frontier ensures x in g.words && Cooperative(p, g, x) {
      ReachRefl(g, x);
    }
  }

  lemma FrontierKnown(p: Program, g: Graph<string>, coop: set<string>, waiting: seq<string>, w: string,
                      rest: seq<string>)
    requires Worklist(p, g, coop, waiting) && waiting == rest + [w]
    ensures w in g.words && coop <= g.words
  {
    hide Cooperative, Seed, Edge;
    assert w in waiting;
  }

  /** A word that is in the set already leaves the worklist without a trace. */
  lemma SkipStep(p: Program, g: Graph<string>, coop: set<string>, waiting: seq<string>, w: string, rest: seq<string>)
    requires Worklist(p, g, coop, waiting) && waiting == rest + [w] && w in coop
    ensures Worklist(p, g, coop, rest)
  {
    hide Cooperative, Seed, Edge;
    assert forall x :: x in waiting <==> x in rest || x == w;
  }

  lemma TakeStep(p: Program, graph: CallGraph, coop0: set<string>, coop: set<string>, waiting: seq<string>, w: string,
                 rest: seq<string>, frontier: seq<string>)
    requires graph.Exact() && coop == coop0 + {w} && waiting == rest + [w] && rest <= frontier
    requires Worklist(p, graph.AsGraph(), coop0, waiting)
    requires forall x :: x in frontier ==> x in rest || (w in graph.edges && x in graph.edges[w])
    requires w in graph.edges ==> forall c :: c in graph.edges[w] ==> c in coop || c in frontier
    ensures Worklist(p, graph.AsGraph(), coop, frontier)
  {
    hide Reach, Seed, IsScc, Recursive;
    var g := graph.AsGraph();
    assert w in waiting && Cooperative(p, g, w);
    forall x | x in frontier ensures x in g.words && Cooperative(p, g, x) {
      if x in rest {
        assert x in waiting;
      } else {
        assert Edge(g, w, x);
        CooperativeStep(p, g, w, x);
      }
    }
    forall s | Seed(p, s) ensures s in coop || s in frontier {
      assert s in waiting ==> s in rest || s == w;
    }
    forall x, y | x in coop && Edge(g, x, y) ensures y in coop || y in frontier {
      assert x != w && y in waiting ==> y in rest || y == w;
    }
  }

  lemma CooperativeStep(p: Program, g: Graph<string>, x: string, y: string)
    requires Cooperative(p, g, x) && Edge(g, x, y)
    ensures Cooperative(p, g, y)
  {
    hide Reach, Seed;
    var s :| Seed(p, s) && Reach(g, s, x);
    EdgeReach(g, x, y);
    ReachTrans(g, s, x, y);
  }

  lemma WorklistDone(p: Program, g: Graph<string>, coop: set<string>)
    requires Worklist(p, g, coop, [])
    ensures forall n :: n in coop <==> Cooperative(p, g, n)
  {
    hide Reach, Seed, Edge;
    forall n | Cooperative(p, g, n) ensures n in coop {
      var s :| Seed(p, s) && Reach(g, s, n);
      ClosedReach(g, coop, s, n);
    }
  }

  // ---- The diagnostics ----

  /** One finding: the word and the span of the call. */
  datatype Diagnostic = Diagnostic(wordName: string, span: Option<Span>)

  function Report(wordName: string, sites: seq<Option<Span>>): seq<Diagnostic> {
    seq(|sites|, k requires 0 <= k < |sites| => Diagnostic(wordName, sites[k]))
  }

  /** What the lint reports: every `chan.yield` site of the words outside the cooperative set, in order. */
  ghost function Findings(p: Program, words: seq<WordDef>): seq<Diagnostic>
    decreases |words|
  {
    if |words| == 0 then []
    else
      (if Cooperative(p, GraphOf(p), words[0].name) then [] else Report(words[0].name, Sites(words[0].body)))
      + Findings(p, words[1..])
  }

  method AnalyzeProgram(p: Program, graph: CallGraph) returns (diagnostics: seq<Diagnostic>)
    requires graph.Exact() && graph.AsGraph() == GraphOf(p)
    ensures diagnostics == Findings(p, p.words)
  {
    hide IsScc, Recursive, Cooperative, Sites, Findings, EdgesOf, Report;
    var coop := CooperativeSet(p, graph);
    diagnostics := [];
    for k := 0 to |p.words|
      invariant diagnostics + Findings(p, p.words[k..]) == Findings(p, p.words)
    {
      FindingsStep(p, k);
      assert [] + Findings(p, p.words[k + 1..]) == Findings(p, p.words[k + 1..]);
      if p.words[k].name !in coop {
        var sites := CollectChanYieldSites(p.words[k].body, []);
        assert sites == Sites(p.words[k].body);
        var found := ReportAll(p.words[k].name, sites);
        diagnostics := diagnostics + found;
      }
    }
    NoFindings(p, p.words[|p.words|..]);
  }

  lemma FindingsStep(p: Program, k: nat)
    requires k < |p.words|
    ensures Findings(p, p.words[k..]) ==
            (if Cooperative(p, GraphOf(p), p.words[k].name) then []
             else Report(p.words[k].name, Sites(p.words[k].body)))
            + Findings(p, p.words[k + 1..])
  {
    hide Cooperative, Sites, GraphOf, Report;
    assert p.words[k..][1..] == p.words[k + 1..];
  }

  lemma NoFindings(p: Program, words: seq<WordDef>)
    requires |words| == 0
    ensures Findings(p, words) == []
  {
  }

  method ReportAll(wordName: string, sites: seq<Option<Span>>) returns (found: seq<Diagnostic>)
    ensures found == Report(wordName, sites)
  {
    found := [];
    for k := 0 to |sites|
      invariant |found| == k && forall j :: 0 <= j < k ==> found[j] == Diagnostic(wordName, sites[j])
    {
      found := found + [Diagnostic(wordName, sites[k])];
    }
  }
}
