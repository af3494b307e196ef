/** Include resolution: a depth-first walk over a module graph that may have cycles
    (crates/compiler/src/resolver.rs). The file system, the parser and the embedded standard
    library are a finite table. */
module Resolver {
  import opened Reachability
  import opened Wrappers

  /** A canonical path: its directory and its name in there. */
  datatype File = File(dir: string, name: string)

  datatype Include = Std(name: string) | Ffi(name: string) | Relative(path: string)

  /** A source of definitions, and a node of the module graph. */
  datatype Node = FileNode(file: File) | Embedded(name: string)

  datatype Location = Location(origin: Node, line: nat)

  /** A word or union definition. */
  datatype Def = Def(name: string, source: Option<Location>)

  datatype Module = Module(includes: seq<Include>, unions: seq<Def>, words: seq<Def>)

  /** None stands for a module that cannot be read or parsed. stdlib holds the files of the
      stdlib directory, relative the files that exist at a directory and a relative path. */
  datatype Env = Env(
    files: map<File, Option<Module>>,
    embedded: map<string, Option<Module>>,
    stdlib: map<string, File>,
    relative: map<(string, string), File>,
    manifests: set<string>)

  datatype Error = NotCanonical | NoManifest | NoStdModule | EmptyPath | AbsolutePath | NoFile | Unparsable

  function ResolveRelative(env: Env, path: string, dir: string): Result<Node, Error> {
    if path == "" then Err(EmptyPath)
    else if path[0] == '/' then Err(AbsolutePath)
    else if (dir, path) in env.relative then Ok(FileNode(env.relative[(dir, path)]))
    else Err(NoFile)
  }

  /** Where an include of the standard library or of a file leads. */
  function ResolveInclude(env: Env, inc: Include, dir: string): Result<Node, Error>
    requires !inc.Ffi?
  {
    match inc
    case Std(name) =>
      if name in env.embedded then Ok(Embedded(name))
      else if name in env.stdlib then Ok(FileNode(env.stdlib[name]))
      else Err(NoStdModule)
    case Relative(path) => ResolveRelative(env, path, dir)
  }

  function Content(env: Env, n: Node): Option<Module> {
    match n
    case FileNode(f) => if f in env.files then env.files[f] else None
    case Embedded(name) => if name in env.embedded then env.embedded[name] else None
  }

  /** `stamp_source` */
  function Stamped(defs: seq<Def>, n: Node): (r: seq<Def>)
    ensures |r| == |defs|
  {
    seq(|defs|, i requires 0 <= i < |defs| =>
      defs[i].(source := Some(Location(n, if defs[i].source.Some? then defs[i].source.value.line else 0))))
  }

  // ---- The module graph ----

  /** The directory that a module's relative includes start from: a file's own, and for an
      embedded module the one of whoever included it first. */
  function DirOf(at: map<string, string>, n: Node): string {
    match n
    case FileNode(f) => f.dir
    case Embedded(name) => if name in at then at[name] else ""
  }

  /** The module an include leads to; none for a foreign library and for a broken include. */
  function Leads(env: Env, inc: Include, dir: string): set<Node> {
    if inc.Ffi? then {}
    else
      var r := ResolveInclude(env, inc, dir);
      if r.Ok? then {r.value} else {}
  }

  /** The include cannot be followed, or leads to a module that cannot be read. */
  predicate Broken(env: Env, inc: Include, dir: string) {
    if inc.Ffi? then inc.name !in env.manifests
    else
      var r := ResolveInclude(env, inc, dir);
      r.Err? || Content(env, r.value).None?
  }

  function Includes(env: Env, n: Node): seq<Include> {
    var m := Content(env, n);
    if m.Some? then m.value.includes else []
  }

  function LeadsAll(env: Env, incs: seq<Include>, dir: string): set<Node> {
    set i, n | 0 <= i < |incs| && n in Leads(env, incs[i], dir) :: n
  }

  function Targets(env: Env, at: map<string, string>, n: Node): set<Node> {
    LeadsAll(env, Includes(env, n), DirOf(at, n))
  }

  /** Some include of the module is broken. */
  predicate Faulty(env: Env, at: map<string, string>, n: Node) {
    exists i :: 0 <= i < |Includes(env, n)| && Broken(env, Includes(env, n)[i], DirOf(at, n))
  }

  function Universe(env: Env): set<Node> {
    (set f | f in env.files :: FileNode(f)) + (set name | name in env.embedded :: Embedded(name))
  }

  function Places(env: Env): set<Node> {
    Universe(env)
    + (set k | k in env.stdlib :: FileNode(env.stdlib[k]))
    + (set k | k in env.relative :: FileNode(env.relative[k]))
  }

  function ModuleGraph(env: Env, at: map<string, string>): Graph<Node> {
    Graph(Places(env), map n | n in Places(env) :: Targets(env, at, n))
  }

  // ---- Walks ----

  /** Every module of the walk is a root or included by an earlier one. */
  ghost predicate Linked(env: Env, at: map<string, string>, order: seq<Node>, roots: set<Node>) {
    forall k :: 0 <= k < |order| ==>
      order[k] in roots || exists j :: 0 <= j < k && order[k] in Targets(env, at, order[j])
  }

  predicate Extends(at: map<string, string>, at': map<string, string>) {
    forall k :: k in at ==> k in at' && at'[k] == at[k]
  }

  predicate Known(at: map<string, string>, seen: set<Node>) {
    forall n :: n in seen && n.Embedded? ==> n.name in at
  }

  predicate Readable(env: Env, seen: set<Node>) {
    forall n :: n in seen ==> Content(env, n).Some?
  }

  /** A walk from the roots that first met the modules of order, in that order. */
  ghost predicate Walk(env: Env, at: map<string, string>, at': map<string, string>, seen: set<Node>, seen': set<Node>,
                       order: seq<Node>, roots: set<Node>) {
    && seen' == seen + (set n | n in order)
    && Distinct(order) && (forall n :: n in order ==> n !in seen)
    && Extends(at, at') && Known(at', seen')
    && Linked(env, at', order, roots)
  }

  /** And that has followed every include of theirs. */
  ghost predicate Complete(env: Env, at: map<string, string>, seen: set<Node>, order: seq<Node>) {
    && Readable(env, seen)
    && (forall n :: n in order ==> !Faulty(env, at, n) && Targets(env, at, n) <= seen)
  }

  function WordsOf(env: Env, order: seq<Node>): seq<Def> {
    if order == [] then []
    else
      var m := Content(env, order[0]);
      (if m.Some? then Stamped(m.value.words, order[0]) else []) + WordsOf(env, order[1..])
  }

  function UnionsOf(env: Env, order: seq<Node>): seq<Def> {
    if order == [] then []
    else
      var m := Content(env, order[0]);
      (if m.Some? then Stamped(m.value.unions, order[0]) else []) + UnionsOf(env, order[1..])
  }

  lemma {:induction false} DefsConcat(env: Env, a: seq<Node>, b: seq<Node>)
    ensures WordsOf(env, a + b) == WordsOf(env, a) + WordsOf(env, b)
    ensures UnionsOf(env, a + b) == UnionsOf(env, a) + UnionsOf(env, b)
    decreases a
  {
    hide Content, Stamped;
    if a == [] {
      assert a + b == b;
    } else {
      assert (a + b)[1..] == a[1..] + b;
      DefsConcat(env, a[1..], b);
    }
  }

  function InModule(defs: seq<Def>, n: Node): seq<(Node, Def)> {
    seq(|defs|, i requires 0 <= i < |defs| => (n, defs[i]))
  }

  /** What the parser gave for the modules, joined in order: each definition with its module. */
  function ParsedWords(env: Env, order: seq<Node>): seq<(Node, Def)> {
    if order == [] then []
    else
      var m := Content(env, order[0]);
      (if m.Some? then InModule(m.value.words, order[0]) else []) + ParsedWords(env, order[1..])
  }

  function ParsedUnions(env: Env, order: seq<Node>): seq<(Node, Def)> {
    if order == [] then []
    else
      var m := Content(env, order[0]);
      (if m.Some? then InModule(m.value.unions, order[0]) else []) + ParsedUnions(env, order[1..])
  }

  /** The definition keeps its name and line, or gets line 0, and is located in its module. */
  predicate LocatedIn(d: Def, n: Node, parsed: Def) {
    && d.name == parsed.name && d.source.Some? && d.source.value.origin == n
    && d.source.value.line == if parsed.source.Some? then parsed.source.value.line else 0
  }

  predicate AllLocated(defs: seq<Def>, parsed: seq<(Node, Def)>) {
    |defs| == |parsed| && forall i :: 0 <= i < |defs| ==> LocatedIn(defs[i], parsed[i].0, parsed[i].1)
  }

  /** Every definition of every module, once and in order, and nothing else. */
  predicate Joined(env: Env, order: seq<Node>, defs: Defs) {
    AllLocated(defs.words, ParsedWords(env, order)) && AllLocated(defs.unions, ParsedUnions(env, order))
  }

  lemma {:induction false} DefsJoined(env: Env, order: seq<Node>)
    ensures Joined(env, order, Defs(WordsOf(env, order), UnionsOf(env, order)))
    decreases order
  {
    hide Content, Stamped, InModule, AllLocated;
    NothingLocated();
    if order != [] {
      DefsJoined(env, order[1..]);
      var m := Content(env, order[0]);
      if m.Some? {
        StampedLocates(m.value.words, order[0]);
        StampedLocates(m.value.unions, order[0]);
        LocatedConcat(Stamped(m.value.words, order[0]), WordsOf(env, order[1..]), InModule(m.value.words, order[0]),
            ParsedWords(env, order[1..]));
        LocatedConcat(Stamped(m.value.unions, order[0]), UnionsOf(env, order[1..]),
            InModule(m.value.unions, order[0]), ParsedUnions(env, order[1..]));
      } else {
        LocatedConcat([], WordsOf(env, order[1..]), [], ParsedWords(env, order[1..]));
        LocatedConcat([], UnionsOf(env, order[1..]), [], ParsedUnions(env, order[1..]));
      }
    }
  }

  lemma NothingLocated()
    ensures AllLocated([], [])
  {
  }

  lemma LocatedConcat(a: seq<Def>, b: seq<Def>, pa: seq<(Node, Def)>, pb: seq<(Node, Def)>)
    requires AllLocated(a, pa) && AllLocated(b, pb)
    ensures AllLocated(a + b, pa + pb)
  {
    hide LocatedIn;
  }

  lemma StampedLocates(defs: seq<Def>, n: Node)
    ensures AllLocated(Stamped(defs, n), InModule(defs, n))
  {
  }

  lemma SameTargets(env: Env, at: map<string, string>, at': map<string, string>, n: Node)
    requires Extends(at, at') && (n.Embedded? ==> n.name in at)
    ensures Targets(env, at', n) == Targets(env, at, n) && Faulty(env, at', n) == Faulty(env, at, n)
  {
  }

  lemma LinkedExtends(env: Env, at: map<string, string>, at': map<string, string>, order: seq<Node>, roots: set<Node>,
                      more: set<Node>)
    requires Linked(env, at, order, roots) && Extends(at, at') && Known(at, set n | n in order) && roots <= more
    ensures Linked(env, at', order, more)
  {
    forall k | 0 <= k < |order|
      ensures order[k] in more || exists j :: 0 <= j < k && order[k] in Targets(env, at', order[j])
    {
      if order[k] !in roots {
        var j :| 0 <= j < k && order[k] in Targets(env, at, order[j]);
        SameTargets(env, at, at', order[j]);
      }
    }
  }

  /** A walk goes on from where a complete walk ended. */
  lemma WalkConcat(env: Env, at: map<string, string>, at1: map<string, string>, at2: map<string, string>,
                   seen: set<Node>, seen1: set<Node>, seen2: set<Node>, o1: seq<Node>, o2: seq<Node>,
                   r1: set<Node>, r2: set<Node>, roots: set<Node>)
    requires Walk(env, at, at1, seen, seen1, o1, r1) && Walk(env, at1, at2, seen1, seen2, o2, r2)
    requires r1 <= roots
    requires forall n :: n in r2 ==> n in roots || exists j :: 0 <= j < |o1| && n in Targets(env, at1, o1[j])
    ensures Walk(env, at, at2, seen, seen2, o1 + o2, roots)
  {
    hide Targets;
    var o := o1 + o2;
    assert forall n :: n in o <==> n in o1 || n in o2;
    assert seen2 == seen + (set n | n in o);
    forall i, j | 0 <= i < j < |o| ensures o[i] != o[j] {
      assert i < |o1| ==> o[i] == o1[i] && o1[i] in o1;
      assert j >= |o1| ==> o[j] == o2[j - |o1|] && o2[j - |o1|] in o2;
    }
    LinkedExtends(env, at1, at2, o1, r1, roots);
    forall k | 0 <= k < |o| ensures o[k] in roots || exists j :: 0 <= j < k && o[k] in Targets(env, at2, o[j]) {
      if k < |o1| {
        assert o[k] == o1[k];
        if o1[k] !in roots {
          var j :| 0 <= j < k && o1[k] in Targets(env, at2, o1[j]);
          assert o[j] == o1[j];
        }
      } else if o2[k - |o1|] in r2 {
        if o[k] !in roots {
          var j :| 0 <= j < |o1| && o[k] in Targets(env, at1, o1[j]);
          SameTargets(env, at1, at2, o1[j]);
          assert o[j] == o1[j];
        }
      } else {
        var j :| 0 <= j < k - |o1| && o2[k - |o1|] in Targets(env, at2, o2[j]);
        assert o[|o1| + j] == o2[j];
      }
    }
  }

  lemma CompleteConcat(env: Env, at1: map<string, string>, at2: map<string, string>, seen1: set<Node>, seen2: set<Node>,
                       o1: seq<Node>, o2: seq<Node>)
    requires Complete(env, at1, seen1, o1) && Complete(env, at2, seen2, o2)
    requires Extends(at1, at2) && Known(at1, set n | n in o1) && seen1 <= seen2
    ensures Complete(env, at2, seen2, o1 + o2)
  {
    hide Targets, Faulty;
    forall n | n in o1 + o2 ensures !Faulty(env, at2, n) && Targets(env, at2, n) <= seen2 {
      if n in o1 { SameTargets(env, at1, at2, n); }
    }
  }

  // ---- Foreign libraries ----

  /** What happens to the list of foreign libraries: a name is added, or a file takes the list with its result. */
  datatype Event = Foreign(name: string) | Taken

  /** The trace of a whole resolution. */
  function TraceOf(env: Env, main: File, program: Module): Trace {
    TraceAll(View(env, main, program), program.includes, main.dir, {FileNode(main)})
  }

  /** The modules met so far, what happened to the list on the way, and the modules newly met in order. */
  datatype Trace = Trace(seen: set<Node>, events: seq<Event>, order: seq<Node>)

  /** Following the includes of one module. */
  function TraceAll(env: Env, incs: seq<Include>, dir: string, seen: set<Node>): (t: Trace)
    ensures seen <= t.seen
    decreases Universe(env) - seen, |incs|, 0
  {
    if incs == [] then Trace(seen, [], [])
    else
      var last := |incs| - 1;
      var before := TraceAll(env, incs[..last], dir, seen);
      assert Universe(env) - before.seen == Universe(env) - seen || Universe(env) - before.seen < Universe(env) - seen;
      var here := TraceOne(env, incs[last], dir, before.seen);
      Trace(here.seen, before.events + here.events, before.order + here.order)
  }

  function TraceOne(env: Env, inc: Include, dir: string, seen: set<Node>): (t: Trace)
    ensures seen <= t.seen
    decreases Universe(env) - seen, 0, 2
  {
    if inc.Ffi? then Trace(seen, [Foreign(inc.name)], [])
    else
      var r := ResolveInclude(env, inc, dir);
      if r.Ok? then TraceNode(env, r.value, dir, seen) else Trace(seen, [], [])
  }

  /** A module is entered once; a file takes the list when its includes are done. */
  function TraceNode(env: Env, n: Node, dir: string, seen: set<Node>): (t: Trace)
    ensures seen <= t.seen
    decreases Universe(env) - seen, 0, 1
  {
    if n in seen || Content(env, n).None? then Trace(seen, [], [])
    else
      assert n in Universe(env) - seen;
      assert Universe(env) - (seen + {n}) < Universe(env) - seen;
      var t := TraceAll(env, Includes(env, n), if n.FileNode? then n.file.dir else dir, seen + {n});
      Trace(t.seen, t.events + (if n.FileNode? then [Taken] else []), [n] + t.order)
  }

  /** The list after the events. */
  function Collect(ffi: seq<string>, events: seq<Event>): seq<string> {
    if events == [] then ffi
    else
      var last := |events| - 1;
      var before := Collect(ffi, events[..last]);
      match events[last]
      case Foreign(name) => if name in before then before else before + [name]
      case Taken => []
  }

  lemma {:induction false} CollectConcat(ffi: seq<string>, a: seq<Event>, b: seq<Event>)
    ensures Collect(ffi, a + b) == Collect(Collect(ffi, a), b)
    decreases |b|
  {
    if b == [] {
      assert a + b == a;
    } else {
      var last := |b| - 1;
      assert (a + b)[..|a + b| - 1] == a + b[..last];
      CollectConcat(ffi, a, b[..last]);
    }
  }

  /** Includes are followed one after the other, what is new each time. */
  lemma {:induction false} TraceConcat(env: Env, a: seq<Include>, b: seq<Include>, dir: string, seen: set<Node>)
    ensures var first := TraceAll(env, a, dir, seen);
            var rest := TraceAll(env, b, dir, first.seen);
            TraceAll(env, a + b, dir, seen)
            == Trace(rest.seen, first.events + rest.events, first.order + rest.order)
    decreases |b|
  {
    hide TraceOne;
    var first := TraceAll(env, a, dir, seen);
    if b == [] {
      assert a + b == a && first.events + [] == first.events && first.order + [] == first.order;
    } else {
      var last := |b| - 1;
      assert (a + b)[..|a + b| - 1] == a + b[..last];
      TraceConcat(env, a, b[..last], dir, seen);
      var front := TraceAll(env, b[..last], dir, first.seen);
      var here := TraceOne(env, b[last], dir, front.seen);
      assert first.events + (front.events + here.events) == first.events + front.events + here.events;
      assert first.order + (front.order + here.order) == first.order + front.order + here.order;
    }
  }

  /** A module that is met for the first time comes first, and then what its own includes newly reach. */
  lemma TraceEnters(env: Env, inc: Include, n: Node, dir: string, seen: set<Node>)
    requires !inc.Ffi? && ResolveInclude(env, inc, dir) == Ok(n) && n !in seen && Content(env, n).Some?
    ensures var t := TraceAll(env, [inc], dir, seen);
            && t.order != [] && t.order[0] == n
            && t.order[1..]
               == TraceAll(env, Includes(env, n), if n.FileNode? then n.file.dir else dir, seen + {n}).order
  {
    assert [inc][..0] == [];
    NoTrace(env, dir, seen, []);
    hide TraceAll, Includes, ResolveInclude;
    TraceStep(env, [inc], 0, dir, seen, []);
    assert [inc][..1] == [inc];
  }

  /** Named at position k and not taken away afterwards. */
  predicate KeptFrom(events: seq<Event>, k: nat, name: string) {
    k < |events| && events[k] == Foreign(name) && forall j :: k < j < |events| ==> !events[j].Taken?
  }

  /** Exactly which names end on the list, each once. */
  lemma {:induction false} CollectKeeps(events: seq<Event>, name: string)
    ensures name in Collect([], events) <==> exists k :: KeptFrom(events, k, name)
    ensures Distinct(Collect([], events))
    decreases |events|
  {
    if events != [] {
      var last := |events| - 1;
      var front := events[..last];
      CollectKeeps(front, name);
      if k: nat :| KeptFrom(front, k, name) && !events[last].Taken? { assert KeptFrom(events, k, name); }
      if events[last] == Foreign(name) { assert KeptFrom(events, last, name); }
      if k: nat :| k < last && KeptFrom(events, k, name) {
        assert front[k] == events[k];
        assert forall j :: k < j < |front| ==> front[j] == events[j];
        assert KeptFrom(front, k, name);
      }
    }
  }

  /** Some module among those has the foreign include. */
  ghost predicate NamedIn(env: Env, nodes: set<Node>, name: string) {
    exists n :: n in nodes && Ffi(name) in Includes(env, n)
  }

  ghost predicate HasFile(nodes: set<Node>) {
    exists n :: n in nodes && n.FileNode?
  }

  /** The names of a trace are the foreign includes of the modules it met, and it takes the list
      exactly if it met a file. */
  lemma {:induction false} TraceAllNames(env: Env, incs: seq<Include>, dir: string, seen: set<Node>, name: string)
    ensures var t := TraceAll(env, incs, dir, seen);
            && (Foreign(name) in t.events <==> Ffi(name) in incs || NamedIn(env, t.seen - seen, name))
            && (Taken in t.events <==> HasFile(t.seen - seen))
    decreases Universe(env) - seen, |incs|, 0
  {
    hide Includes;
    if incs != [] {
      var last := |incs| - 1;
      var before := TraceAll(env, incs[..last], dir, seen);
      assert Universe(env) - before.seen == Universe(env) - seen || Universe(env) - before.seen < Universe(env) - seen;
      var here := TraceOne(env, incs[last], dir, before.seen);
      TraceAllNames(env, incs[..last], dir, seen, name);
      TraceOneNames(env, incs[last], dir, before.seen, name);
      assert incs == incs[..last] + [incs[last]];
      assert here.seen - seen == (before.seen - seen) + (here.seen - before.seen);
      hide TraceOne;
    }
  }

  lemma {:induction false} TraceOneNames(env: Env, inc: Include, dir: string, seen: set<Node>, name: string)
    ensures var t := TraceOne(env, inc, dir, seen);
            && (Foreign(name) in t.events <==> inc == Ffi(name) || NamedIn(env, t.seen - seen, name))
            && (Taken in t.events <==> HasFile(t.seen - seen))
    decreases Universe(env) - seen, 0, 2
  {
    hide Includes, Content, TraceAll;
    if !inc.Ffi? {
      var r := ResolveInclude(env, inc, dir);
      if r.Ok? { TraceNodeNames(env, r.value, dir, seen, name); }
    }
  }

  lemma {:induction false} TraceNodeNames(env: Env, n: Node, dir: string, seen: set<Node>, name: string)
    ensures var t := TraceNode(env, n, dir, seen);
            && (Foreign(name) in t.events <==> NamedIn(env, t.seen - seen, name))
            && (Taken in t.events <==> HasFile(t.seen - seen))
    decreases Universe(env) - seen, 0, 1
  {
    if n !in seen && Content(env, n).Some? {
      var dir' := if n.FileNode? then n.file.dir else dir;
      assert n in Universe(env) - seen;
      assert Universe(env) - (seen + {n}) < Universe(env) - seen;
      hide Includes, Content, Universe;
      TraceAllNames(env, Includes(env, n), dir', seen + {n}, name);
      var t := TraceAll(env, Includes(env, n), dir', seen + {n});
      assert t.seen - seen == {n} + (t.seen - (seen + {n}));
    }
  }

  // ---- The resolver ----

  datatype Defs = Defs(words: seq<Def>, unions: seq<Def>)

  /** What a resolution returns: the definitions, the foreign libraries, and the files and embedded
      modules included so far. */
  datatype Resolved = Resolved(defs: Defs, ffi: seq<string>, sourceFiles: set<File>, embeddedModules: set<string>)

  /** The table as a walk from main sees it: main itself has been parsed by the caller. */
  function View(env: Env, main: File, program: Module): Env {
    env.(files := env.files[main := Some(program)])
  }

  predicate BrokenUpTo(env: Env, incs: seq<Include>, i: nat, dir: string) {
    exists k :: 0 <= k < i && k < |incs| && Broken(env, incs[k], dir)
  }

  /** The walk did what it should: it is complete and gives the definitions of its modules, or
      it stopped at a broken include of a module it had reached. */
  ghost predicate Outcome(env: Env, at: map<string, string>, seen: set<Node>, order: seq<Node>,
                          r: Result<Defs, Error>, broken: bool) {
    && (r.Ok? ==> !broken && Complete(env, at, seen, order)
                  && r.value == Defs(WordsOf(env, order), UnionsOf(env, order)))
    && (r.Err? ==> broken || exists n :: n in order && Faulty(env, at, n))
  }

  function Append(a: Defs, b: Defs): Defs {
    Defs(a.words + b.words, a.unions + b.unions)
  }

  function OwnDefs(m: Module, n: Node): Defs {
    Defs(Stamped(m.words, n), Stamped(m.unions, n))
  }

  lemma EmptyWalk(env: Env, at: map<string, string>, seen: set<Node>, roots: set<Node>, broken: bool)
    requires Known(at, seen) && Readable(env, seen) && !broken
    ensures Walk(env, at, at, seen, seen, [], roots)
    ensures Outcome(env, at, seen, [], Ok(Defs([], [])), broken)
  {
    assert seen + (set n | n in []) == seen;
  }

  lemma LeadsStep(env: Env, incs: seq<Include>, i: nat, dir: string)
    requires i < |incs|
    ensures LeadsAll(env, incs[..i + 1], dir) == LeadsAll(env, incs[..i], dir) + Leads(env, incs[i], dir)
    ensures LeadsAll(env, incs[..i + 1], dir) <= LeadsAll(env, incs, dir)
  {
    hide Leads;
    var (a, b) := (incs[..i], incs[..i + 1]);
    forall n | n in LeadsAll(env, b, dir) ensures n in LeadsAll(env, a, dir) + Leads(env, incs[i], dir) {
      var k :| 0 <= k < |b| && n in Leads(env, b[k], dir);
      assert k < i ==> a[k] == b[k];
    }
    forall n | n in LeadsAll(env, a, dir) ensures n in LeadsAll(env, b, dir) {
      var k :| 0 <= k < |a| && n in Leads(env, a[k], dir);
      assert b[k] == a[k];
    }
    forall n | n in Leads(env, incs[i], dir) ensures n in LeadsAll(env, b, dir) {
      assert b[i] == incs[i];
    }
  }

  lemma WalkWiden(env: Env, at: map<string, string>, at': map<string, string>, seen: set<Node>, seen': set<Node>,
                  order: seq<Node>, roots: set<Node>, more: set<Node>)
    requires Walk(env, at, at', seen, seen', order, roots) && roots <= more
    ensures Walk(env, at, at', seen, seen', order, more)
  {
    hide Targets;
  }

  lemma WalkFacts(env: Env, at: map<string, string>, at': map<string, string>, seen: set<Node>, seen': set<Node>,
                  order: seq<Node>, roots: set<Node>)
    requires Walk(env, at, at', seen, seen', order, roots)
    ensures seen <= seen' && Extends(at, at') && Known(at', set n | n in order) && Known(at', seen')
    ensures forall n :: n in order ==> n in seen'
  {
    hide Targets;
  }

  /** One more include of the same module. */
  lemma NextInclude(env: Env, at0: map<string, string>, at1: map<string, string>, at2: map<string, string>,
                    seen0: set<Node>, seen1: set<Node>, seen2: set<Node>, o1: seq<Node>, o2: seq<Node>,
                    incs: seq<Include>, i: nat, dir: string, d1: Defs, r2: Result<Defs, Error>)
    requires i < |incs|
    requires Walk(env, at0, at1, seen0, seen1, o1, LeadsAll(env, incs[..i], dir))
    requires Outcome(env, at1, seen1, o1, Ok(d1), BrokenUpTo(env, incs, i, dir))
    requires Walk(env, at1, at2, seen1, seen2, o2, Leads(env, incs[i], dir))
    requires Outcome(env, at2, seen2, o2, r2, Broken(env, incs[i], dir))
    ensures Walk(env, at0, at2, seen0, seen2, o1 + o2, LeadsAll(env, incs[..i + 1], dir))
    ensures Walk(env, at0, at2, seen0, seen2, o1 + o2, LeadsAll(env, incs, dir))
    ensures r2.Ok? ==> Outcome(env, at2, seen2, o1 + o2, Ok(Append(d1, r2.value)), BrokenUpTo(env, incs, i + 1, dir))
    ensures r2.Err? ==> Outcome(env, at2, seen2, o1 + o2, r2, BrokenUpTo(env, incs, |incs|, dir))
  {
    hide Walk, Complete, LeadsAll, Leads, Broken, Faulty, Targets, WordsOf, UnionsOf;
    LeadsStep(env, incs, i, dir);
    var roots := LeadsAll(env, incs[..i + 1], dir);
    WalkConcat(env, at0, at1, at2, seen0, seen1, seen2, o1, o2, LeadsAll(env, incs[..i], dir),
        Leads(env, incs[i], dir), roots);
    WalkWiden(env, at0, at2, seen0, seen2, o1 + o2, roots, LeadsAll(env, incs, dir));
    WalkFacts(env, at0, at1, seen0, seen1, o1, LeadsAll(env, incs[..i], dir));
    WalkFacts(env, at1, at2, seen1, seen2, o2, Leads(env, incs[i], dir));
    if r2.Ok? {
      DefsConcat(env, o1, o2);
      CompleteConcat(env, at1, at2, seen1, seen2, o1, o2);
    } else if !Broken(env, incs[i], dir) {
      var n :| n in o2 && Faulty(env, at2, n);
      assert n in o1 + o2;
    }
  }

  /** Entering a module that was not seen before, and following its includes. */
  lemma EnterModule(env: Env, at0: map<string, string>, at1: map<string, string>, at2: map<string, string>,
                    seen0: set<Node>, seen1: set<Node>, seen2: set<Node>, n: Node, m: Module, more: seq<Node>,
                    r: Result<Defs, Error>)
    requires n !in seen0 && seen1 == seen0 + {n} && Extends(at0, at1) && Known(at1, seen1)
    requires Content(env, n) == Some(m)
    requires Walk(env, at1, at2, seen1, seen2, more, LeadsAll(env, m.includes, DirOf(at1, n)))
    requires Outcome(env, at2, seen2, more, r, BrokenUpTo(env, m.includes, |m.includes|, DirOf(at1, n)))
    requires r.Ok? ==> LeadsAll(env, m.includes, DirOf(at1, n)) <= seen2
    ensures Walk(env, at0, at2, seen0, seen2, [n] + more, {n})
    ensures r.Ok? ==> Outcome(env, at2, seen2, [n] + more, Ok(Append(OwnDefs(m, n), r.value)), false)
    ensures r.Err? ==> Outcome(env, at2, seen2, [n] + more, r, false)
  {
    hide LeadsAll, Broken, Stamped;
    assert Walk(env, at0, at1, seen0, seen1, [n], {n});
    assert Targets(env, at1, n) == LeadsAll(env, m.includes, DirOf(at1, n));
    WalkConcat(env, at0, at1, at2, seen0, seen1, seen2, [n], more, {n}, Targets(env, at1, n), {n});
    SameTargets(env, at1, at2, n);
    assert ([n] + more)[1..] == more;
  }

  /** One more include in the trace. */
  lemma TraceStep(env: Env, incs: seq<Include>, i: nat, dir: string, seen: set<Node>, ffi: seq<string>)
    requires i < |incs|
    ensures var before := TraceAll(env, incs[..i], dir, seen);
            var here := TraceOne(env, incs[i], dir, before.seen);
            var t := TraceAll(env, incs[..i + 1], dir, seen);
            && t.seen == here.seen && t.order == before.order + here.order
            && Collect(ffi, t.events) == Collect(Collect(ffi, before.events), here.events)
  {
    hide Collect, TraceOne;
    var (a, b) := (incs[..i], incs[..i + 1]);
    assert b[..|b| - 1] == a && b[i] == incs[i];
    var before := TraceAll(env, a, dir, seen);
    CollectConcat(ffi, before.events, TraceOne(env, incs[i], dir, before.seen).events);
  }

  lemma NoTrace(env: Env, dir: string, seen: set<Node>, ffi: seq<string>)
    ensures TraceAll(env, [], dir, seen) == Trace(seen, [], []) && Collect(ffi, []) == ffi
  {
  }

  lemma ForeignCollected(ffi: seq<string>, name: string)
    ensures Collect(ffi, [Foreign(name)]) == if name in ffi then ffi else ffi + [name]
  {
    assert [Foreign(name)][..0] == [];
  }

  /** A module that is entered. */
  lemma TraceEntered(env: Env, n: Node, dir: string, seen: set<Node>, m: Module, ffi: seq<string>)
    requires n !in seen && Content(env, n) == Some(m)
    ensures var inner := TraceAll(env, m.includes, if n.FileNode? then n.file.dir else dir, seen + {n});
            var t := TraceNode(env, n, dir, seen);
            && t.seen == inner.seen && t.order == [n] + inner.order
            && Collect(ffi, t.events) == if n.FileNode? then [] else Collect(ffi, inner.events)
  {
    hide TraceAll;
    var inner := TraceAll(env, m.includes, if n.FileNode? then n.file.dir else dir, seen + {n});
    assert inner.events + [] == inner.events;
    assert (inner.events + [Taken])[..|inner.events|] == inner.events;
  }

  class Resolver {
    const env: Env
    var includedFiles: set<File>
    var includedEmbedded: set<string>
    var ffiIncludes: seq<string>
    /** Where each embedded module was first included from. */
    ghost var at: map<string, string>

    constructor (env: Env)
      ensures this.env == env && Seen() == {} && at == map[]
    {
      this.env := env;
      includedFiles, includedEmbedded, ffiIncludes, at := {}, {}, [], map[];
    }

    ghost function Seen(): set<Node>
      reads this
    {
      (set f | f in includedFiles :: FileNode(f)) + (set name | name in includedEmbedded :: Embedded(name))
    }

    /** The walk's table agrees with the real one on all files but those. */
    ghost predicate SeesBut(view: Env, files: set<File>)
      reads this
    {
      && view == env.(files := view.files)
      && (forall f :: f !in files ==> (f in view.files <==> f in env.files))
      && (forall f :: f !in files && f in env.files ==> view.files[f] == env.files[f])
      && Readable(view, Seen()) && at.Keys == includedEmbedded
    }

    ghost predicate Sees(view: Env)
      reads this
    {
      SeesBut(view, includedFiles)
    }

    /** The modules that can still be entered. */
    ghost function Left(view: Env): set<Node>
      reads this
    {
      Universe(view) - Seen()
    }

    /** The modules of the trace have been met, and the list of foreign libraries went through its events. */
    ghost predicate Traced(t: Trace, ffi: seq<string>, order: seq<Node>)
      reads this
    {
      Seen() == t.seen && ffiIncludes == Collect(ffi, t.events) && order == t.order
    }

    /** The loop over a module's includes. */
    method ProcessIncludes(incs: seq<Include>, dir: string, ghost view: Env)
      returns (r: Result<Defs, Error>, ghost order: seq<Node>)
      requires Sees(view)
      modifies this
      ensures Walk(view, old(at), at, old(Seen()), Seen(), order, LeadsAll(view, incs, dir))
      ensures Outcome(view, at, Seen(), order, r, BrokenUpTo(view, incs, |incs|, dir))
      ensures r.Ok? ==> Sees(view) && LeadsAll(view, incs, dir) <= Seen()
      ensures r.Ok? ==> Traced(TraceAll(view, incs, dir, old(Seen())), old(ffiIncludes), order)
      decreases Left(view), 3
    {
      hide Walk, Outcome, LeadsAll, Leads, Broken, TraceAll, TraceOne, Collect;
      var words, unions := [], [];
      order := [];
      KnownSeen(view);
      EmptyWalk(view, at, Seen(), LeadsAll(view, incs[..0], dir), BrokenUpTo(view, incs, 0, dir));
      NoLeads(view, dir);
      NoTrace(view, dir, Seen(), ffiIncludes);
      var i := 0;
      while i < |incs|
        invariant 0 <= i <= |incs| && Sees(view)
        invariant Walk(view, old(at), at, old(Seen()), Seen(), order, LeadsAll(view, incs[..i], dir))
        invariant Outcome(view, at, Seen(), order, Ok(Defs(words, unions)), BrokenUpTo(view, incs, i, dir))
        invariant LeadsAll(view, incs[..i], dir) <= Seen() && old(Seen()) <= Seen()
        invariant Traced(TraceAll(view, incs[..i], dir, old(Seen())), old(ffiIncludes), order)
      {
        ghost var seen1, at1 := Seen(), at;
        var content, more := ProcessInclude(incs[i], dir, view);
        NextInclude(view, old(at), at1, at, old(Seen()), seen1, Seen(), order, more, incs, i, dir,
            Defs(words, unions), content);
        WalkFacts(view, at1, at, seen1, Seen(), more, Leads(view, incs[i], dir));
        order := order + more;
        if content.Err? { return content, order; }
        LeadsStep(view, incs, i, dir);
        TraceStep(view, incs, i, dir, old(Seen()), old(ffiIncludes));
        words, unions := words + content.value.words, unions + content.value.unions;
        i := i + 1;
      }
      assert incs[..i] == incs;
      return Ok(Defs(words, unions)), order;
    }

    lemma KnownSeen(view: Env)
      requires Sees(view)
      ensures Known(at, Seen()) && Readable(view, Seen())
    {
    }

    method ProcessInclude(inc: Include, dir: string, ghost view: Env)
      returns (r: Result<Defs, Error>, ghost order: seq<Node>)
      requires Sees(view)
      modifies this
      ensures Walk(view, old(at), at, old(Seen()), Seen(), order, Leads(view, inc, dir))
      ensures Outcome(view, at, Seen(), order, r, Broken(view, inc, dir))
      ensures r.Ok? ==> Sees(view) && Leads(view, inc, dir) <= Seen()
      ensures r.Ok? ==> Traced(TraceOne(view, inc, dir, old(Seen())), old(ffiIncludes), order)
      decreases Left(view), 2
    {
      hide Walk, Content, TraceNode;
      order := [];
      KnownSeen(view);
      if inc.Ffi? {
        if inc.name !in env.manifests {
          EmptyWalk(view, at, Seen(), {}, false);
          return Err(NoManifest), order;
        }
        ForeignCollected(ffiIncludes, inc.name);
        if inc.name !in ffiIncludes { ffiIncludes := ffiIncludes + [inc.name]; }
        EmptyWalk(view, at, Seen(), {}, Broken(view, inc, dir));
        return Ok(Defs([], [])), order;
      }
      var resolved := ResolveInclude(env, inc, dir);
      if resolved.Err? {
        EmptyWalk(view, at, Seen(), {}, false);
        return Err(resolved.error), order;
      }
      match resolved.value
      case Embedded(name) => r, order := ProcessEmbeddedInclude(name, dir, view);
      case FileNode(file) => r, order := ProcessFileInclude(file, dir, view);
    }

    method ProcessEmbeddedInclude(name: string, dir: string, ghost view: Env)
      returns (r: Result<Defs, Error>, ghost order: seq<Node>)
      requires Sees(view) && name in env.embedded
      modifies this
      ensures Walk(view, old(at), at, old(Seen()), Seen(), order, {Embedded(name)})
      ensures Outcome(view, at, Seen(), order, r, Content(view, Embedded(name)).None?)
      ensures r.Ok? ==> Sees(view) && Embedded(name) in Seen()
      ensures r.Ok? ==> Traced(TraceNode(view, Embedded(name), dir, old(Seen())), old(ffiIncludes), order)
      decreases Left(view), 1
    {
      hide Walk, Outcome, LeadsAll, Broken, TraceAll, Collect;
      ghost var n := Embedded(name);
      NoTrace(view, dir, Seen(), ffiIncludes);
      if name in includedEmbedded {
        assert n in Seen();
        EmptyWalk(view, at, Seen(), {n}, false);
        return Ok(Defs([], [])), [];
      }
      ghost var seen0, at0 := Seen(), at;
      assert n !in seen0;
      includedEmbedded := includedEmbedded + {name};
      at := at[name := dir];
      assert Seen() == seen0 + {n};
      var m := env.embedded[name];
      if m.None? {
        UnreadableModule(view, at0, at, seen0, Seen(), n);
        return Err(Unparsable), [n];
      }
      assert n in Universe(view);
      ghost var at1, seen1 := at, Seen();
      var own := OwnDefs(m.value, Embedded(name));
      var content, more := ProcessIncludes(m.value.includes, dir, view);
      EnterModule(view, at0, at1, at, seen0, seen1, Seen(), n, m.value, more, content);
      TraceEntered(view, n, dir, seen0, m.value, old(ffiIncludes));
      WalkFacts(view, at1, at, seen1, Seen(), more, LeadsAll(view, m.value.includes, dir));
      order := [n] + more;
      if content.Err? { return content, order; }
      return Ok(Append(own, content.value)), order;
    }

    method ProcessFileInclude(file: File, ghost dir: string, ghost view: Env)
      returns (r: Result<Defs, Error>, ghost order: seq<Node>)
      requires Sees(view)
      modifies this
      ensures Walk(view, old(at), at, old(Seen()), Seen(), order, {FileNode(file)})
      ensures Outcome(view, at, Seen(), order, r, Content(view, FileNode(file)).None?)
      ensures r.Ok? ==> Sees(view) && FileNode(file) in Seen()
      ensures r.Ok? ==> Traced(TraceNode(view, FileNode(file), dir, old(Seen())), old(ffiIncludes), order)
      decreases Left(view), 1
    {
      hide Walk, Outcome, TraceAll, Collect;
      KnownSeen(view);
      NoTrace(view, dir, Seen(), ffiIncludes);
      if file in includedFiles {
        assert FileNode(file) in Seen();
        EmptyWalk(view, at, Seen(), {FileNode(file)}, false);
        return Ok(Defs([], [])), [];
      }
      if file !in env.files || env.files[file].None? {
        StoppedBefore(view, at, Seen(), {FileNode(file)}, Unparsable);
        return Err(Unparsable), [];
      }
      var resolved;
      TraceEntered(view, FileNode(file), dir, Seen(), env.files[file].value, ffiIncludes);
      resolved, order := ResolveFile(file, env.files[file].value, view);
      if resolved.Err? { return Err(resolved.error), order; }
      return Ok(resolved.value.defs), order;
    }

    /** Resolution of a whole program. It ends on every include graph; it succeeds only when every
        include of every reachable module can be followed, and then merges each of them once. */
    method Resolve(source: Option<File>, program: Module) returns (r: Result<Resolved, Error>, ghost order: seq<Node>)
      requires Seen() == {} && at == map[]
      modifies this
      ensures source.None? ==> r == Err(NotCanonical)
      ensures source.Some? && r.Ok? ==>
                MergesReachable(View(env, source.value, program), at, FileNode(source.value), order, r.value.defs)
      ensures source.Some? && r.Ok? ==>
                && (forall f :: f in r.value.sourceFiles <==> FileNode(f) in order)
                && (forall name :: name in r.value.embeddedModules <==> Embedded(name) in order)
      ensures source.Some? && r.Ok? ==>
                r.value.ffi == Collect(old(ffiIncludes), TraceOf(env, source.value, program).events)
                && TraceOf(env, source.value, program).seen == (set n | n in order)
                && order == [FileNode(source.value)] + TraceOf(env, source.value, program).order
      ensures source.Some? && r.Ok? ==> Joined(View(env, source.value, program), order, r.value.defs)
      ensures source.Some? && r.Err? ==>
                var view := View(env, source.value, program);
                exists n :: Reach(ModuleGraph(view, at), FileNode(source.value), n) && Faulty(view, at, n)
    {
      hide Walk, Outcome, MergesReachable, Reach, ModuleGraph, Faulty, TraceAll, Collect, Joined;
      if source.None? { return Err(NotCanonical), []; }
      ghost var view := View(env, source.value, program);
      NothingSeen(view, source.value, program);
      assert Seen() + {FileNode(source.value)} == {FileNode(source.value)};
      r, order := ResolveFile(source.value, program, view);
      WalkIsSeen(view, at, Seen(), order, FileNode(source.value));
      SeenMembers();
      WalkMerges(view, at, Seen(), order, FileNode(source.value), if r.Ok? then Ok(r.value.defs) else Err(r.error));
      if r.Ok? { MergedJoined(view, at, FileNode(source.value), order, r.value.defs); }
    }

    lemma SeenMembers()
      ensures forall f :: f in includedFiles <==> FileNode(f) in Seen()
      ensures forall name :: name in includedEmbedded <==> Embedded(name) in Seen()
    {
    }

    lemma NothingSeen(view: Env, file: File, program: Module)
      requires Seen() == {} && at == map[] && view == View(env, file, program)
      ensures SeesBut(view, includedFiles + {file}) && file !in includedFiles
      ensures Content(view, FileNode(file)) == Some(program) && FileNode(file) in Places(view)
    {
      assert forall f :: f in includedFiles ==> FileNode(f) in Seen();
      assert forall name :: name in includedEmbedded ==> Embedded(name) in Seen();
      assert file in view.files;
    }

    /** `resolve`, once the path is canonical. */
    method ResolveFile(file: File, program: Module, ghost view: Env)
      returns (r: Result<Resolved, Error>, ghost order: seq<Node>)
      requires SeesBut(view, includedFiles + {file}) && file !in includedFiles
      requires Content(view, FileNode(file)) == Some(program)
      modifies this
      ensures Walk(view, old(at), at, old(Seen()), Seen(), order, {FileNode(file)})
      ensures Outcome(view, at, Seen(), order, if r.Ok? then Ok(r.value.defs) else Err(r.error), false)
      ensures r.Ok? ==> Sees(view) && FileNode(file) in Seen()
      ensures r.Ok? ==> r.value.sourceFiles == includedFiles && r.value.embeddedModules == includedEmbedded
      ensures r.Ok? ==>
                var t := TraceAll(view, program.includes, file.dir, old(Seen()) + {FileNode(file)});
                && Seen() == t.seen && r.value.ffi == Collect(old(ffiIncludes), t.events) && ffiIncludes == []
                && order == [FileNode(file)] + t.order
      decreases Left(view), 0
    {
      hide Walk, Outcome, LeadsAll, Broken, TraceAll, Collect;
      ghost var n := FileNode(file);
      ghost var seen0, at0 := Seen(), at;
      assert n !in seen0;
      includedFiles := includedFiles + {file};
      assert Seen() == seen0 + {n};
      assert n in Universe(view);
      ghost var at1, seen1 := at, Seen();
      var own := OwnDefs(program, FileNode(file));
      var content, more := ProcessIncludes(program.includes, file.dir, view);
      EnterModule(view, at0, at1, at, seen0, seen1, Seen(), n, program, more, content);
      WalkFacts(view, at1, at, seen1, Seen(), more, LeadsAll(view, program.includes, file.dir));
      order := [n] + more;
      if content.Err? { return Err(content.error), order; }
      r := Ok(Resolved(Append(own, content.value), ffiIncludes, includedFiles, includedEmbedded));
      ffiIncludes := [];
    }
  }

  // ---- What a successful resolution is ----

  /** The definitions of every module reachable from the root, each module once. */
  ghost predicate MergesReachable(env: Env, at: map<string, string>, root: Node, order: seq<Node>, defs: Defs) {
    && Distinct(order)
    && (forall n :: n in order <==> Reach(ModuleGraph(env, at), root, n))
    && defs == Defs(WordsOf(env, order), UnionsOf(env, order))
    && (forall n :: n in order ==> !Faulty(env, at, n))
  }

  lemma MergedJoined(env: Env, at: map<string, string>, root: Node, order: seq<Node>, defs: Defs)
    requires MergesReachable(env, at, root, order, defs)
    ensures Joined(env, order, defs)
  {
    hide Joined;
    DefsJoined(env, order);
  }

  lemma TargetsArePlaces(env: Env, at: map<string, string>, n: Node)
    ensures Targets(env, at, n) <= Places(env)
  {
    var (incs, dir) := (Includes(env, n), DirOf(at, n));
    forall x | x in LeadsAll(env, incs, dir) ensures x in Places(env) {
      var i :| 0 <= i < |incs| && x in Leads(env, incs[i], dir);
      assert x in Leads(env, incs[i], dir);
      if incs[i].Std? && incs[i].name !in env.embedded { assert x == FileNode(env.stdlib[incs[i].name]); }
      if incs[i].Relative? { assert x == FileNode(env.relative[(dir, incs[i].path)]); }
    }
  }

  lemma EdgeIff(env: Env, at: map<string, string>, x: Node, y: Node)
    ensures Edge(ModuleGraph(env, at), x, y) <==> x in Places(env) && y in Targets(env, at, x)
  {
    hide Targets, Places;
    TargetsArePlaces(env, at, x);
  }

  lemma WalkIsSeen(env: Env, at: map<string, string>, seen: set<Node>, order: seq<Node>, root: Node)
    requires Walk(env, map[], at, {}, seen, order, {root})
    ensures forall n :: n in seen <==> n in order
  {
    hide Linked;
  }

  /** Everything a walk met is reachable. */
  lemma WalkReaches(env: Env, at: map<string, string>, order: seq<Node>, root: Node, k: nat)
    requires Linked(env, at, order, {root}) && root in Places(env) && k < |order|
    ensures Reach(ModuleGraph(env, at), root, order[k]) && order[k] in Places(env)
    decreases k
  {
    hide Targets, Places, ModuleGraph, Reach, Edge;
    if order[k] == root {
      ReachRefl(ModuleGraph(env, at), root);
    } else {
      var j :| 0 <= j < k && order[k] in Targets(env, at, order[j]);
      WalkReaches(env, at, order, root, j);
      EdgeIff(env, at, order[j], order[k]);
      TargetsArePlaces(env, at, order[j]);
      EdgeReach(ModuleGraph(env, at), order[j], order[k]);
      ReachTrans(ModuleGraph(env, at), root, order[j], order[k]);
    }
  }

  /** And a complete walk met everything reachable. */
  lemma CompleteReaches(env: Env, at: map<string, string>, seen: set<Node>, order: seq<Node>, root: Node, n: Node)
    requires seen == (set x | x in order) && Complete(env, at, seen, order) && root in order
    requires Reach(ModuleGraph(env, at), root, n)
    ensures n in order
  {
    hide Targets, Places, ModuleGraph, Reach, Edge, Faulty;
    forall x, y | x in seen && Edge(ModuleGraph(env, at), x, y) ensures y in seen {
      EdgeIff(env, at, x, y);
    }
    ClosedReach(ModuleGraph(env, at), seen, root, n);
  }

  lemma WalkMerges(env: Env, at: map<string, string>, seen: set<Node>, order: seq<Node>, root: Node,
                   r: Result<Defs, Error>)
    requires Walk(env, map[], at, {}, seen, order, {root}) && Outcome(env, at, seen, order, r, false)
    requires root in Places(env) && (r.Ok? ==> root in seen)
    ensures r.Ok? ==> MergesReachable(env, at, root, order, r.value)
    ensures r.Err? ==> exists n :: Reach(ModuleGraph(env, at), root, n) && Faulty(env, at, n)
  {
    hide Targets, Places, ModuleGraph, Reach, Faulty;
    forall n | n in order ensures Reach(ModuleGraph(env, at), root, n) {
      var k :| 0 <= k < |order| && order[k] == n;
      WalkReaches(env, at, order, root, k);
    }
    if r.Ok? {
      forall n | Reach(ModuleGraph(env, at), root, n) ensures n in order {
        CompleteReaches(env, at, seen, order, root, n);
      }
    }
  }

  // ---- Which foreign libraries a resolution returns ----

  /** A library is returned, once, exactly when it is named after the last file that the program
      includes is done. It is one that some module names, and without an included file all are returned. */
  lemma LibrariesKept(env: Env, main: File, program: Module, name: string)
    ensures var t := TraceOf(env, main, program);
            var (ffi, view) := (Collect([], t.events), View(env, main, program));
            && Distinct(ffi)
            && (name in ffi <==> exists k :: KeptFrom(t.events, k, name))
            && (name in ffi ==> NamedIn(view, t.seen, name))
            && (!HasFile(t.seen - {FileNode(main)}) ==> (name in ffi <==> NamedIn(view, t.seen, name)))
  {
    hide Includes, TraceAll, Collect;
    var t := TraceOf(env, main, program);
    var (view, root) := (View(env, main, program), FileNode(main));
    TraceAllNames(view, program.includes, main.dir, {root}, name);
    CollectKeeps(t.events, name);
    MainIncludes(env, main, program);
    assert t.seen == (t.seen - {root}) + {root};
    if k :| 0 <= k < |t.events| && t.events[k] == Foreign(name) && Taken !in t.events {
      assert KeptFrom(t.events, k, name);
    }
  }

  lemma MainIncludes(env: Env, main: File, program: Module)
    ensures Includes(View(env, main, program), FileNode(main)) == program.includes
  {
  }

  /** The order of two includes decides: the file takes the library that was named before it. */
  lemma LibraryLost()
    ensures var f := File("d", "f");
            var env := Env(map[f := Some(Module([], [], []))], map[], map[], map[("d", "f") := f], {"x"});
            var first := Module([Ffi("x"), Relative("f")], [], []);
            var last := Module([Relative("f"), Ffi("x")], [], []);
            && Collect([], TraceOf(env, File("d", "main"), first).events) == []
            && Collect([], TraceOf(env, File("d", "main"), last).events) == ["x"]
  {
    var (f, main) := (File("d", "f"), File("d", "main"));
    var env := Env(map[f := Some(Module([], [], []))], map[], map[], map[("d", "f") := f], {"x"});
    var first := Module([Ffi("x"), Relative("f")], [], []);
    var last := Module([Relative("f"), Ffi("x")], [], []);
    EmptyFileTaken(View(env, main, first), f, {FileNode(main)});
    EmptyFileTaken(View(env, main, last), f, {FileNode(main)});
    hide TraceAll, TraceNode, Collect;
    TwoIncludes(View(env, main, first), Ffi("x"), Relative("f"), "d", {FileNode(main)});
    TwoIncludes(View(env, main, last), Relative("f"), Ffi("x"), "d", {FileNode(main)});
    ForeignCollected([], "x");
    TakenCollected([]);
    TakenCollected(["x"]);
  }

  lemma TwoIncludes(env: Env, a: Include, b: Include, dir: string, seen: set<Node>)
    ensures var here := TraceOne(env, a, dir, seen);
            Collect([], TraceAll(env, [a, b], dir, seen).events)
            == Collect(Collect([], here.events), TraceOne(env, b, dir, here.seen).events)
  {
    hide TraceOne, TraceAll, Collect;
    assert [a, b][..0] == [] && [a, b][..1] == [a] && [a, b][..2] == [a, b];
    NoTrace(env, dir, seen, []);
    TraceStep(env, [a, b], 0, dir, seen, []);
    TraceStep(env, [a, b], 1, dir, seen, []);
  }

  /** A file without includes that is met for the first time. */
  lemma EmptyFileTaken(env: Env, f: File, seen: set<Node>)
    requires FileNode(f) !in seen && Content(env, FileNode(f)) == Some(Module([], [], []))
    requires ("d", "f") in env.relative && env.relative[("d", "f")] == f
    ensures TraceOne(env, Relative("f"), "d", seen).events == [Taken]
  {
    assert "f"[0] != '/';
    NoTrace(env, f.dir, seen + {FileNode(f)}, []);
    assert ResolveInclude(env, Relative("f"), "d") == Ok(FileNode(f));
  }

  lemma TakenCollected(ffi: seq<string>)
    ensures Collect(ffi, [Taken]) == []
  {
  }

  // ---- Where includes lead ----

  /** The stdlib directory is a fallback: what it holds under the name of an embedded module does not matter. */
  lemma EmbeddedFirst(env: Env, stdlib: map<string, File>, inc: Include, dir: string)
    requires forall name :: name !in env.embedded ==>
               (name in stdlib <==> name in env.stdlib) && (name in stdlib ==> stdlib[name] == env.stdlib[name])
    requires !inc.Ffi?
    ensures ResolveInclude(env.(stdlib := stdlib), inc, dir) == ResolveInclude(env, inc, dir)
  {
  }

  /** A standard module is the embedded one, or else the file in that directory, or else not found; an empty
      or absolute path is refused from everywhere. */
  lemma IncludeLeads(env: Env, name: string, path: string, dir: string)
    ensures Leads(env, Std(name), dir) ==
              if name in env.embedded then {Embedded(name)}
              else if name in env.stdlib then {FileNode(env.stdlib[name])} else {}
    ensures path == "" || path[0] == '/' ==> Leads(env, Relative(path), dir) == {} && Broken(env, Relative(path), dir)
    ensures name !in env.embedded && name !in env.stdlib ==> Broken(env, Std(name), dir)
  {
  }

  // ---- When it matters who includes an embedded module first ----

  /** The modules that the standard-library includes lead to, from wherever. */
  function StdLeads(env: Env, incs: seq<Include>): set<Node> {
    set i, n | 0 <= i < |incs| && incs[i].Std? && n in Leads(env, incs[i], "") :: n
  }

  /** Every file that a relative include of an embedded module finds anywhere is one that the
      module includes from the standard library as well. A finite check on the tables. */
  predicate RelativesCovered(env: Env) {
    forall name, k :: name in env.embedded && k in env.relative && Relative(k.1) in Includes(env, Embedded(name))
                      && ResolveRelative(env, k.1, k.0).Ok? ==>
                        FileNode(env.relative[k]) in StdLeads(env, Includes(env, Embedded(name)))
  }

  ghost predicate SameGraphEverywhere(env: Env) {
    forall at1, at2 :: ModuleGraph(env, at1) == ModuleGraph(env, at2)
  }

  /** Exactly when the module graph does not depend on who includes an embedded module first. */
  lemma SameGraphIff(env: Env)
    ensures SameGraphEverywhere(env) <==> RelativesCovered(env)
  {
    hide ModuleGraph, StdLeads, Includes, ResolveRelative;
    if RelativesCovered(env) {
      forall at1, at2 ensures ModuleGraph(env, at1) == ModuleGraph(env, at2) { CoveredGraph(env, at1, at2); }
    }
    if SameGraphEverywhere(env) {
      forall name, k | name in env.embedded && k in env.relative && Relative(k.1) in Includes(env, Embedded(name))
                       && ResolveRelative(env, k.1, k.0).Ok?
        ensures FileNode(env.relative[k]) in StdLeads(env, Includes(env, Embedded(name)))
      {
        var nowhere := NewDir(env.relative.Keys);
        assert ModuleGraph(env, map[name := k.0]) == ModuleGraph(env, map[name := nowhere]);
        SameGraphCovers(env, name, k, nowhere);
      }
    }
  }

  lemma CoveredGraph(env: Env, at1: map<string, string>, at2: map<string, string>)
    requires RelativesCovered(env)
    ensures ModuleGraph(env, at1) == ModuleGraph(env, at2)
  {
    hide Places, RelativesCovered;
    forall n | n in Places(env) ensures Targets(env, at1, n) == Targets(env, at2, n) {
      if n.Embedded? {
        CoveredLeads(env, n.name, DirOf(at1, n));
        CoveredLeads(env, n.name, DirOf(at2, n));
      }
    }
  }

  /** Then an embedded module leads where its standard-library includes do. */
  lemma CoveredLeads(env: Env, name: string, dir: string)
    requires RelativesCovered(env)
    ensures LeadsAll(env, Includes(env, Embedded(name)), dir) == StdLeads(env, Includes(env, Embedded(name)))
  {
    hide Leads, ResolveRelative;
    var incs := Includes(env, Embedded(name));
    forall n | n in LeadsAll(env, incs, dir) ensures n in StdLeads(env, incs) {
      var i :| 0 <= i < |incs| && n in Leads(env, incs[i], dir);
      LeadsWhere(env, incs[i], dir, n);
      if incs[i].Relative? {
        assert (dir, incs[i].path) in env.relative && Relative(incs[i].path) in incs;
      }
    }
    forall n | n in StdLeads(env, incs) ensures n in LeadsAll(env, incs, dir) {
      var i :| 0 <= i < |incs| && incs[i].Std? && n in Leads(env, incs[i], "");
      LeadsWhere(env, incs[i], dir, n);
    }
  }

  /** An include of the standard library leads to one place from everywhere, a relative one to what
      the table holds, a foreign library nowhere. */
  lemma LeadsWhere(env: Env, inc: Include, dir: string, n: Node)
    ensures inc.Std? ==> Leads(env, inc, dir) == Leads(env, inc, "")
    ensures inc.Relative? ==>
              (n in Leads(env, inc, dir) <==>
                 ResolveRelative(env, inc.path, dir).Ok? && (dir, inc.path) in env.relative
                 && n == FileNode(env.relative[(dir, inc.path)]))
    ensures inc.Ffi? ==> Leads(env, inc, dir) == {}
  {
  }

  lemma NewDir(keys: set<(string, string)>) returns (dir: string)
    ensures forall k :: k in keys ==> |k.0| < |dir|
    decreases keys
  {
    dir := "/";
    if k :| k in keys {
      dir := NewDir(keys - {k});
      assert forall j :: j in keys ==> j == k || j in keys - {k};
      dir := dir + k.0 + "/";
    }
  }

  lemma SameGraphCovers(env: Env, name: string, k: (string, string), nowhere: string)
    requires name in env.embedded && k in env.relative && Relative(k.1) in Includes(env, Embedded(name))
    requires ResolveRelative(env, k.1, k.0).Ok?
    requires forall j :: j in env.relative ==> |j.0| < |nowhere|
    requires ModuleGraph(env, map[name := k.0]) == ModuleGraph(env, map[name := nowhere])
    ensures FileNode(env.relative[k]) in StdLeads(env, Includes(env, Embedded(name)))
  {
    hide Leads, ResolveRelative, Includes;
    var (incs, x) := (Includes(env, Embedded(name)), FileNode(env.relative[k]));
    var j :| 0 <= j < |incs| && incs[j] == Relative(k.1);
    LeadsWhere(env, incs[j], k.0, x);
    assert k == (k.0, k.1);
    assert x in LeadsAll(env, incs, k.0);
    SameTargetsOf(env, map[name := k.0], map[name := nowhere], Embedded(name));
    var i :| 0 <= i < |incs| && x in Leads(env, incs[i], nowhere);
    LeadsWhere(env, incs[i], nowhere, x);
  }

  lemma SameTargetsOf(env: Env, at1: map<string, string>, at2: map<string, string>, n: Node)
    requires n in Places(env) && ModuleGraph(env, at1) == ModuleGraph(env, at2)
    ensures Targets(env, at1, n) == Targets(env, at2, n)
  {
    hide Targets, Places;
    assert ModuleGraph(env, at1).edges[n] == ModuleGraph(env, at2).edges[n];
  }

  /** Embedded modules include only standard modules and foreign libraries. */
  predicate EmbeddedStdOnly(env: Env) {
    forall name :: name in env.embedded ==>
      forall i :: 0 <= i < |Includes(env, Embedded(name))| ==> !Includes(env, Embedded(name))[i].Relative?
  }

  /** An embedded module with a relative include has a broken include wherever the table knows a
      directory. A finite check as well. */
  predicate RelativesBroken(env: Env) {
    forall name, k :: name in env.embedded && HasRelative(Includes(env, Embedded(name))) && k in env.relative ==>
      Faulty(env, map[name := k.0], Embedded(name))
  }

  predicate HasRelative(incs: seq<Include>) {
    exists i :: 0 <= i < |incs| && incs[i].Relative?
  }

  ghost predicate SameFaultsEverywhere(env: Env) {
    forall at1, at2, n :: Faulty(env, at1, n) == Faulty(env, at2, n)
  }

  /** Exactly when it does not matter for which modules have a broken include. */
  lemma SameFaultsIff(env: Env)
    ensures SameFaultsEverywhere(env) <==> RelativesBroken(env)
  {
    hide Faulty, Includes, HasRelative;
    if RelativesBroken(env) {
      forall at1, at2, n ensures Faulty(env, at1, n) == Faulty(env, at2, n) {
        BrokenFaults(env, at1, n);
        BrokenFaults(env, at2, n);
      }
    }
    if SameFaultsEverywhere(env) {
      forall name, k | name in env.embedded && HasRelative(Includes(env, Embedded(name))) && k in env.relative
        ensures Faulty(env, map[name := k.0], Embedded(name))
      {
        var nowhere := NewDir(env.relative.Keys);
        FaultyNowhere(env, map[name := nowhere], name, nowhere);
        assert Faulty(env, map[name := nowhere], Embedded(name)) == Faulty(env, map[name := k.0], Embedded(name));
      }
    }
  }

  /** A relative include finds nothing from a directory that the table does not know. */
  lemma FaultyNowhere(env: Env, at: map<string, string>, name: string, dir: string)
    requires DirOf(at, Embedded(name)) == dir && HasRelative(Includes(env, Embedded(name)))
    requires forall k :: k in env.relative ==> k.0 != dir
    ensures Faulty(env, at, Embedded(name))
  {
    hide Includes;
    var incs := Includes(env, Embedded(name));
    var i :| 0 <= i < |incs| && incs[i].Relative?;
    var key := (dir, incs[i].path);
    assert key.0 == dir && key !in env.relative;
    assert Broken(env, incs[i], dir);
  }

  /** What a module's faults are under that condition, whoever included it first. */
  lemma BrokenFaults(env: Env, at: map<string, string>, n: Node)
    requires RelativesBroken(env)
    ensures n.Embedded? && HasRelative(Includes(env, n)) ==> Faulty(env, at, n)
    ensures n.FileNode? || !HasRelative(Includes(env, n)) ==> Faulty(env, at, n) == Faulty(env, map[], n)
  {
    if n.Embedded? && HasRelative(Includes(env, n)) {
      hide HasRelative, Broken;
      var dir := DirOf(at, n);
      if k :| k in env.relative && k.0 == dir {
        assert Faulty(env, map[n.name := k.0], n);
      } else {
        FaultyNowhere(env, at, n.name, dir);
      }
    } else {
      var (incs, d1, d2) := (Includes(env, n), DirOf(at, n), DirOf(map[], n));
      forall i | 0 <= i < |incs| ensures Broken(env, incs[i], d1) == Broken(env, incs[i], d2) {}
    }
  }

  /** With no relative include in an embedded module neither matters. */
  lemma StdOnlyGraph(env: Env, at1: map<string, string>, at2: map<string, string>)
    requires EmbeddedStdOnly(env)
    ensures ModuleGraph(env, at1) == ModuleGraph(env, at2)
    ensures forall n :: Faulty(env, at1, n) == Faulty(env, at2, n)
  {
    hide ModuleGraph, Faulty, Includes;
    assert RelativesCovered(env) && RelativesBroken(env);
    SameGraphIff(env);
    SameFaultsIff(env);
  }

  /** A table on which it matters: an embedded module's relative include is looked up where the
      first includer is. */
  lemma FirstIncluderMatters()
    ensures var env := Env(map[], map["e" := Some(Module([Relative("r")], [], []))], map[],
                           map[("x", "r") := File("x", "r"), ("y", "r") := File("y", "r")], {});
            && Targets(env, map["e" := "x"], Embedded("e")) == {FileNode(File("x", "r"))}
            && Targets(env, map["e" := "y"], Embedded("e")) == {FileNode(File("y", "r"))}
            && !RelativesCovered(env)
  {
    var env := Env(map[], map["e" := Some(Module([Relative("r")], [], []))], map[],
                   map[("x", "r") := File("x", "r"), ("y", "r") := File("y", "r")], {});
    OneInclude(env, Relative("r"), "x");
    OneInclude(env, Relative("r"), "y");
    var incs := Includes(env, Embedded("e"));
    assert incs[0] == Relative("r") && Relative(("x", "r").1) in incs;
    assert ("x", "r") in env.relative && StdLeads(env, incs) == {};
  }

  lemma OneInclude(env: Env, inc: Include, dir: string)
    ensures LeadsAll(env, [inc], dir) == Leads(env, inc, dir)
  {
    assert [inc][..0] == [] && [inc][..1] == [inc];
    LeadsStep(env, [inc], 0, dir);
    NoLeads(env, dir);
  }

  lemma NoLeads(env: Env, dir: string)
    ensures LeadsAll(env, [], dir) == {}
  {
  }

  lemma UnreadableModule(env: Env, at0: map<string, string>, at1: map<string, string>, seen0: set<Node>,
                         seen1: set<Node>, n: Node)
    requires n !in seen0 && seen1 == seen0 + {n} && Extends(at0, at1) && Known(at1, seen1)
    ensures Walk(env, at0, at1, seen0, seen1, [n], {n})
    ensures Outcome(env, at1, seen1, [n], Err(Unparsable), true)
  {
    hide Targets;
  }

  lemma StoppedBefore(env: Env, at: map<string, string>, seen: set<Node>, roots: set<Node>, e: Error)
    requires Known(at, seen)
    ensures Walk(env, at, at, seen, seen, [], roots)
    ensures Outcome(env, at, seen, [], Err(e), true)
  {
    assert seen + (set n | n in []) == seen;
  }
}
