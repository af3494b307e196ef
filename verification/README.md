# Verified models of the Seq compiler and runtime

Seq is a concatenative language: words act on a value stack, quotations are values, and strands
are scheduled cooperatively. This project models the parts of its compiler and runtime that carry
the most state, and proves in Dafny what they are for.

| file | part |
|---|---|
| `Wrappers.dfy`, `Ast.dfy`, `Types.dfy` | result types, syntax trees, types |
| `Reachability.dfy`, `Tarjan.dfy`, `CallGraph.dfy` | call extraction and Tarjan's strongly connected components |
| `Normalize.dfy`, `Semantics.dfy`, `MeaningLaws.dfy`, `LoweringCorrect.dfy` | the `if` lowering pass, a big-step meaning of programs and its laws, and that the pass preserves it |
| `ChanYieldLint.dfy`, `LintAgreement.dfy` | the `chan.yield` lint and its agreement before and after lowering |
| `Anywhere.dfy` | what "anywhere inside" means, and that the passes look there |
| `Unification.dfy`, `UnificationLimits.dfy` | row-polymorphic unification, and where soundness, completeness and termination stop |
| `Channel.dfy` | send, receive and close as interleaved atomic steps |
| `Dns.dfy` | lookups that share one worker job per host |
| `Values.dfy`, `Stack.dfy`, `Sharing.dfy`, `MapOps.dfy`, `SharedStacks.dfy` | tagged words, the value stack, reference counts, copy-on-write maps, and runs of many strands |
| `Tcp.dfy` | socket ids that survive yields |
| `Resolver.dfy` | include resolution over a cyclic module graph |

The source's mutable objects are classes here (`TarjanState`, `ChannelData`, `DnsCache`,
`InFlight`, `ArcHeap`, `TaggedStack`, `SocketRegistry`, `Resolver`); its loops are loops. Each
method is proved against a function or predicate, and the results are lemmas about those.
Concurrent code is a state machine whose steps are the critical sections of the source; a result
over runs is about every sequence of enabled steps.

Inputs that come from outside are parameters: the clock and the answers of `getaddrinfo`, the
address an allocator picks, the cache entry that an eviction drops, the outcome of an accept or
of a handshake, the file system and the parser's results, and the builtins of the language that
work on data without quotations.

Where the code and its documentation disagree, the model follows the code:

- `crates/runtime/src/channel.rs:178-181` says that receive answers false when the channel is
  closed and drained. A send that checked the flag before the close may enqueue behind the
  sentinel. `Channel.DrainedIff` gives the exact condition.
- `crates/runtime/src/dns.rs:220-223` says that a late arriver sees the cache and never needs to
  attach. One that looked before the write does attach, and may lead a second lookup
  (`Dns.SecondLookup`); `Dns.AttachesIffMissed` says exactly who attaches, and
  `Dns.WriteServesLookUps` which later lookups the cache does answer.
- `crates/compiler/src/normalize.rs` presents the pass as meaning-preserving. At a literal triple
  on a condition that is no Bool the runtime's `if` stops the program, while the lowered
  conditional tests the word. `LoweringCorrect.LoweringAgrees` says that nothing else can differ,
  and `LoweringCorrect.LoweredIsLoose` what the lowered program does instead. The type
  checker, which is not part of this model, rules such programs out.
- `crates/compiler/src/unification.rs:57-58` says that `compose` is composition. That holds exactly
  when `Unification.Composable` does, a finite check on the two substitutions. The two calls inside
  `unification.rs` meet it on flat stacks (`Unification.ComposeSolved`); the type checker's other
  calls, in `crates/compiler/src/typechecker/control_flow.rs`, are not part of this model.
- The occurs checks of `crates/compiler/src/unification.rs` are there to prevent infinite types.
  They look at one level only, and the recursion need not end: `UnificationLimits.UnifyNeedNotEnd`
  gives two stacks. They also take row variables for type variables of the same name
  (`Unification.OccursCounterexample`); `Unification.CompleteIffDisjoint` says that completeness
  needs the two kinds of names to differ, which names made by `fresh_var` in
  `crates/compiler/src/typechecker/freshen.rs:9-13` do.
- `crates/compiler/src/resolver.rs:77-81` says that foreign includes are collected. Resolving an
  included file takes the list, and its caller drops it (`Resolver.LibraryLost`);
  `Resolver.LibrariesKept` says exactly which libraries are returned.

## Model

| member | source | states |
|---|---|---|
| CallGraph.ExtractCalls | crates/compiler/src/call_graph.rs:238-296 | the callees of a body are exactly the known words called anywhere in it, inside quotations, branches and match arms too |
| CallGraph.ExtractFromStatement | crates/compiler/src/call_graph.rs:256-296 | one statement adds to the set exactly the known words it calls |
| CallGraph.TarjanState.RelaxLowlink | crates/compiler/src/call_graph.rs:226-233 | the word has a lowlink, which becomes the smaller of itself and the candidate; nothing else changes |
| CallGraph.TarjanState.PopComponent | crates/compiler/src/call_graph.rs:183-198 | pops down to the word, which is on the stack, so the pop never fails; the component is what was above and at it, and the rest of the state is kept |
| CallGraph.TarjanVisit | crates/compiler/src/call_graph.rs:149-199 | a visit of an unindexed word keeps the invariant of the search (finished components are exact and closed, every stacked word reaches an active one), keeps all that was recorded before, leaves only active words with unindexed callees, and gives the word a lowlink that means what Tarjan's argument needs; each `expect` on the way is met and the recursion ends because a word is indexed once |
| Tarjan.EnterStep | crates/compiler/src/call_graph.rs:150-155 | giving a word its index and pushing it keeps the search invariant |
| Tarjan.BackStep | crates/compiler/src/call_graph.rs:173-180 | relaxing by the index of a callee on the stack keeps what a lowlink means: it is the index of a reachable stack word, and no call seen so far goes lower |
| Tarjan.ChildStep | crates/compiler/src/call_graph.rs:165-172 | after a recursive visit, relaxing by the callee's lowlink keeps the invariant |
| Tarjan.PoppedIsScc | crates/compiler/src/call_graph.rs:183-198 | when lowlink equals index, what is popped is one whole class of mutual reachability |
| Tarjan.KeepStep | crates/compiler/src/call_graph.rs:183-184 | when it does not, leaving the word on the stack completes its visit: every stacked word still reaches an active one |
| CallGraph.AllSccs | crates/compiler/src/call_graph.rs:117-124 | the components of all visits are disjoint, cover all words, and two words share one exactly when each reaches the other along the edges |
| CallGraph.KeepRecursive | crates/compiler/src/call_graph.rs:126-145 | the filter keeps exactly the components some member of which has a nonempty call path to itself, the size-one self-loop included |
| CallGraph.FindSccs | crates/compiler/src/call_graph.rs:117-146 | the result holds exactly the recursive components of the graph, pairwise disjoint |
| CallGraph.ManyIsRecursive | crates/compiler/src/call_graph.rs:131-133 | a component of two or more words is recursive |
| CallGraph.SingleIsRecursive | crates/compiler/src/call_graph.rs:134-141 | a component of one word is recursive exactly when the word calls itself directly |
| CallGraph.Build | crates/compiler/src/call_graph.rs:57-75 | the built graph has the program's words and calls, with exact recursive components |
| CallGraph.EdgeIsCall | crates/compiler/src/call_graph.rs:57-68 | an edge is a call: the body of the last definition of the word calls the other, in whatever nesting |
| Anywhere.CallsIff | crates/compiler/src/call_graph.rs:256-296 | what the extraction takes for a call is a call at some position of some nested list; nested is defined once, for all passes |
| CallGraph.MutualRecursionIsExact | crates/compiler/src/call_graph.rs:96-100 | `are_mutually_recursive(a, b)` holds exactly when there are nonempty call paths from a to b and from b to a |
| CallGraph.RecursionIsExact | crates/compiler/src/call_graph.rs:79-83 | `is_recursive(w)` holds exactly when w has a nonempty call path to itself |
| Reachability.ReachTrans | crates/compiler/src/call_graph.rs:149-199 | reachability, the reference notion of paths in the call graph, composes |
| Reachability.ClosedReach | crates/compiler/src/call_graph.rs:149-199 | a set closed under edges holds everything reachable from its members |
| Normalize.RewriteStatements | crates/compiler/src/normalize.rs:54-112 | the in-place remove/insert loop ends and computes the recursive rewrite of the list |
| Normalize.RewriteStatement | crates/compiler/src/normalize.rs:90-109 | the bodies nested in one statement are rewritten in place |
| Normalize.LowerLiteralIfCombinators | crates/compiler/src/normalize.rs:48-52 | every word body of the program is rewritten, names and order kept |
| Normalize.LowerIsNormal | crates/compiler/src/normalize.rs:54-123 | no Quotation-Quotation-`if` triple is left at any nesting depth |
| Normalize.NormalFixed | crates/compiler/src/normalize.rs:54-123 | a list without such triples is left as it is |
| Normalize.LowerIdempotent | crates/compiler/src/normalize.rs:48-52 | a second pass changes nothing, on any program |
| Anywhere.NormalIff | crates/compiler/src/normalize.rs:114-123 | a list is in that normal form exactly when no list nested in it has a triple at any position |
| Anywhere.LowerMarks | crates/compiler/src/normalize.rs:54-112 | lowering keeps every call, literal and source span, in order; the span of the `if` goes to the conditional |
| Anywhere.LowerInside | crates/compiler/src/normalize.rs:54-112 | the lists nested in a lowered list are exactly the nested lists, lowered |
| Anywhere.QuotationsKept | crates/compiler/src/normalize.rs:54-112 | the quotations of a lowered list are exactly those in no literal triple, with their ids, bodies lowered |
| Semantics.StrictIsStepwise | crates/runtime/src/combinators.rs:103-121 | a run is its statements one after the other; the label that tells a stop at a literal triple from a stop at any other `if` is only a name for one panic |
| Semantics.LooseExec | crates/runtime/src/combinators.rs:103-121 | a run whose literal triples test the payload of a non-Bool condition is the real run, unless that one stops at such a triple |
| MeaningLaws.CallRuns | crates/runtime/src/quotations.rs:226-236 | `[ q ] call` runs q |
| MeaningLaws.DipRuns | crates/runtime/src/combinators.rs:28-45 | `[ q ] dip` runs q below the top value |
| MeaningLaws.KeepIsDupDip | crates/runtime/src/combinators.rs:51-69 | `[ q ] keep` is `dup [ q ] dip`, stops included |
| MeaningLaws.BiIsKeepCall | crates/runtime/src/combinators.rs:75-97 | `[ p ] [ q ] bi` is `[ p ] keep [ q ] call` |
| MeaningLaws.IfIsCall | crates/runtime/src/combinators.rs:103-121 | `[ t ] [ e ] if` on a Bool is a call of one of them |
| MeaningLaws.IfStatement | crates/compiler/src/codegen/control_flow.rs:45-66 | a conditional statement on a Bool is a call of the branch, or nothing |
| MeaningLaws.PayloadIsWord | crates/compiler/src/codegen/layout.rs:70-86 | what a conditional statement tests is the tagged word of the slot without its lowest bit |
| MeaningLaws.LiteralsPush | crates/compiler/src/codegen/statements.rs:414-443 | literals and quotations push themselves, in order |
| MeaningLaws.WordRunsBody | crates/compiler/src/codegen/statements.rs:131-141 | a user word runs its definition, unless a builtin has the name |
| MeaningLaws.PrimRuns | crates/compiler/src/codegen/statements.rs:131-141 | a builtin on data takes what it asks for, leaves what lies below, and comes before a user word of its name |
| MeaningLaws.ShufflesAgree | crates/core/src/stack.rs:301-441 | a shuffle word does to the values what the operation on the value stack does, and stops exactly on too few |
| MeaningLaws.MatchStatement | crates/compiler/src/codegen/control_flow.rs:141-409 | a match runs the first arm with the variant's name |
| MeaningLaws.MakeThenMatch | crates/compiler/src/codegen/control_flow.rs:141-409 | matching on a variant puts the values back as `variant.make-n` took them |
| MeaningLaws.BindingsPush | crates/compiler/src/codegen/control_flow.rs:141-409 | bindings push the fields they name, in the order of the bindings |
| LoweringCorrect.ExecAgrees | crates/compiler/src/normalize.rs:54-112 | for every body, stack and bound, without exception: the lowered body on the lowered stack ends as the body does when its literal triples test the payload of a non-Bool condition, up to lowering of quotation values |
| LoweringCorrect.WordAgrees | crates/runtime/src/quotations.rs:387-408 | so do `call`, `dip`, `keep`, `bi` and `if`, calls of user words, and the shuffles, where the two stacks hold differently written quotations |
| LoweringCorrect.TripleAgrees | crates/compiler/src/codegen/control_flow.rs:45-66 | the conditional statement that replaces a literal triple takes the branch that the payload of the condition selects, the triple's own branch on a Bool |
| LoweringCorrect.ArmsAgree | crates/compiler/src/codegen/control_flow.rs:141-409 | a match takes the same arm with the same bindings |
| LoweringCorrect.TableLowered | crates/compiler/src/normalize.rs:48-52 | the word table of the lowered program is the lowered word table |
| LoweringCorrect.LoweredIsLoose | crates/compiler/src/normalize.rs:48-112 | what a lowered program does, for every program, start stack and bound: what the original does when literal triples accept a non-Bool condition |
| LoweringCorrect.LoweringAgrees | crates/compiler/src/normalize.rs:48-112 | for every program, start stack and bound, in what the runtime reports: original and lowered run end alike exactly when the original does not stop at a literal triple on a non-Bool condition, or does and the run that accepts it stops at some other `if` on a non-Bool |
| LoweringCorrect.StopsAlikeExample | crates/compiler/src/normalize.rs:48-112 | the second case happens: `1 [ 2 [ ] dup if ] [ ] if` stops at the literal triple before lowering and at the inner `if` after it |
| LoweringCorrect.RunsCorrespond | crates/compiler/src/normalize.rs:48-112 | then one ends, fails or runs out exactly when the other does, in the same stack up to lowering; a lowered program never stops at a literal triple |
| LoweringCorrect.TripleFaithfulIffBool | crates/runtime/src/combinators.rs:103-121 | a literal triple runs the same branch before and after lowering exactly on Bool conditions |
| LoweringCorrect.NonBoolCounterexample | crates/compiler/src/codegen/control_flow.rs:45-66 | `1 [ ] [ ] if` stops before lowering and ends after it |
| ChanYieldLint.ScanForSeeds | crates/compiler/src/chan_yield_lint.rs:137-173 | adds exactly the known words called in quotations right before a spawn or weave, and reports whether there is a spawn or weave at any depth |
| ChanYieldLint.CollectChanYieldSites | crates/compiler/src/chan_yield_lint.rs:213-240 | appends the spans of all `chan.yield` calls at any depth, in order |
| ChanYieldLint.CollectSeeds | crates/compiler/src/chan_yield_lint.rs:99-106 | the seeds are the words that spawn and the words called in a spawned quotation |
| ChanYieldLint.CooperativeSet | crates/compiler/src/chan_yield_lint.rs:91-126 | the worklist ends and the cooperative set is exactly the set of words reachable from the seeds |
| ChanYieldLint.AnalyzeProgram | crates/compiler/src/chan_yield_lint.rs:44-63 | the diagnostics are the `chan.yield` sites of the words that no seed reaches, in program order |
| Anywhere.SpawnsIff | crates/compiler/src/chan_yield_lint.rs:137-173 | a spawner is a word with a call of `strand.spawn` or `strand.weave` at any depth |
| Anywhere.SeedsIff | crates/compiler/src/chan_yield_lint.rs:137-173 | a body contributes a seed exactly when somewhere a spawn or weave follows directly on a literal quotation in which, at any depth, it is called |
| Anywhere.SeedIff | crates/compiler/src/chan_yield_lint.rs:99-106 | the roots of the cooperative set are the spawners and the words so contributed by any word |
| Anywhere.SitesAreMarks | crates/compiler/src/chan_yield_lint.rs:213-240 | the sites are the `chan.yield` calls, each once, in the order of the code |
| Anywhere.SitesIff | crates/compiler/src/chan_yield_lint.rs:213-240 | and they are found at any depth |
| Anywhere.FindingsIff | crates/compiler/src/chan_yield_lint.rs:44-63 | a diagnostic names a word that is not cooperative and a `chan.yield` call at any depth in it, and every such call has one |
| Anywhere.FindingsInOrder | crates/compiler/src/chan_yield_lint.rs:44-63 | the diagnostics come word by word in the order of the program |
| LintAgreement.LowerCalls | crates/compiler/src/normalize.rs:54-112 | for every name: the lowered body calls it exactly when the body calls it other than as the `if` of a literal triple |
| LintAgreement.BareIsCall | crates/compiler/src/normalize.rs:114-123 | for names other than `if` that is every call |
| Anywhere.BareIff | crates/compiler/src/normalize.rs:114-123 | a call other than as the `if` of a literal triple is one at a position that ends no triple of its own list |
| LintAgreement.LowerSeeds | crates/compiler/src/chan_yield_lint.rs:137-173 | the lowered body contributes to the seeds exactly what the body contributes through calls outside literal triples, quotation-before-spawn included |
| LintAgreement.LowerSites | crates/compiler/src/chan_yield_lint.rs:213-240 | lowering keeps the `chan.yield` spans and their order |
| LintAgreement.GraphKeptIff | crates/compiler/src/call_graph.rs:57-75 | the call graph is the same before and after lowering exactly when every definition in force that calls a user word `if` also does so outside its literal triples |
| LintAgreement.SeedsKeptIff | crates/compiler/src/chan_yield_lint.rs:99-106 | the seeds are the same exactly when a user word `if` that is a seed is one through calls outside literal triples, or by spawning |
| LintAgreement.IfStanding | crates/compiler/src/chan_yield_lint.rs:91-126 | a user word `if` is cooperative after lowering exactly when it is a seed, or reached from one by calls, without the `if` of any literal triple |
| LintAgreement.CooperativeKeptIff | crates/compiler/src/chan_yield_lint.rs:91-126 | the cooperative set is the same before and after lowering exactly when a user word `if` that is cooperative is so in that way |
| LintAgreement.KeptIsStanding | crates/compiler/src/chan_yield_lint.rs:91-126 | that is so when graph and seeds are the same, and more often |
| LintAgreement.LowerCooperative | crates/compiler/src/chan_yield_lint.rs:91-126 | under that condition each word is cooperative before lowering exactly when it is after |
| LintAgreement.LintAgreesIff | crates/compiler/src/chan_yield_lint.rs:44-63 | the diagnostics, in order, are the same before and after lowering exactly when every word with a `chan.yield` site that was cooperative still is |
| LintAgreement.LintAgrees | crates/compiler/src/chan_yield_lint.rs:44-63 | so they are whenever the cooperative set is the same; a program with no user word `if` meets the condition |
| LintAgreement.RecursionAgrees | crates/compiler/src/call_graph.rs:79-100 | when the graph is the same, so are all answers of the recursion analysis |
| LintAgreement.WordNamedIfCounterexample | crates/compiler/src/normalize.rs:114-123 | with a user word named `if` an edge of the call graph can be lost |
| Unification.ComposeLoops | crates/compiler/src/unification.rs:59-86 | the four loops fill the two maps of the composed substitution |
| Unification.ComposeTypes | crates/compiler/src/unification.rs:63-72 | the two loops over type variables: later entries win, each side applied to the other's values |
| Unification.ComposeRows | crates/compiler/src/unification.rs:74-83 | the same for row variables |
| Unification.ComposeIff | crates/compiler/src/unification.rs:57-86 | `compose` is composition, self first, on every stack type exactly when a finite check on the variables that other binds succeeds |
| Unification.SeparateComposable | crates/compiler/src/unification.rs:57-86 | the check succeeds when no variable of self's domain is bound or mentioned by other |
| Unification.ComposeCounterexample | crates/compiler/src/unification.rs:69-72 | a pair that fails it |
| Unification.ComposeSolved | crates/compiler/src/unification.rs:144-150 | that is so at both calls inside unification, on flat stacks: the second substitution was found after applying the first |
| Unification.SolvedIdempotent | crates/compiler/src/unification.rs:42-54 | a substitution that unification returns on flat stacks is idempotent; flat means that no variable is inside a quotation or closure |
| Unification.VarFreeUnifyStacks | crates/compiler/src/unification.rs:144-242 | on stacks without variables, quotations nested to any depth, unification is agreement: equality up to Union against Variant and Closure against Quotation, and binds nothing |
| Unification.UnifySound | crates/compiler/src/unification.rs:244-299 | on flat stacks success gives a solved substitution that makes both sides agree position by position |
| Unification.AgreeEqual | crates/compiler/src/unification.rs:176-190 | with no bare Variant and no closure agreement is equality |
| Unification.UnifyPrincipal | crates/compiler/src/unification.rs:244-299 | stacks that some substitution makes equal, variables nested in quotations to any depth, are unified, by a substitution that every such substitution factors through, unless the occurs check finds a type variable of an element position in another element |
| Unification.FlatApart | crates/compiler/src/unification.rs:102-142 | on flat stacks it can find one only in the captures of a closure |
| Unification.UnifySelfStacks | crates/compiler/src/unification.rs:244-299 | a stack is unified with itself by the empty substitution, whatever is nested in it |
| Unification.CompleteIffDisjoint | crates/compiler/src/unification.rs:102-142 | for two sets of names: whatever some substitution makes equal is unified exactly when no type variable of an element position shares its name with what the occurs check finds inside other elements |
| Unification.OccursCounterexample | crates/compiler/src/unification.rs:102-127 | the check takes a row variable's name for a type variable's and refuses a variable that could be bound |
| Unification.FactorsStack | crates/compiler/src/unification.rs:42-54 | what factoring means: applying the unifier first changes nothing |
| Unification.BindRowPrincipal | crates/compiler/src/unification.rs:249-268 | the occurs check never refuses a row variable that could be solved |
| Unification.UnifiesIffUnifiable | crates/compiler/src/unification.rs:244-299 | on flat stacks with no bare Variant and no closure, unification succeeds exactly on unifiable stacks |
| Unification.UnifyEffectsSound | crates/compiler/src/unification.rs:144-150 | `unify_effects` on flat inputs and outputs: one substitution makes both pairs agree |
| Unification.UnifyEffectsPrincipal | crates/compiler/src/unification.rs:144-150 | `unify_effects`, variables nested to any depth, succeeds with a most general substitution when some substitution solves both pairs, unless the occurs check finds a type variable of an element position in another element |
| Unification.UnifyPairSound | crates/compiler/src/unification.rs:207-236 | two quotations or closures, in all four combinations, with flat effects: success gives one substitution under which inputs agree and outputs agree |
| Unification.UnifyPairPrincipal | crates/compiler/src/unification.rs:207-236 | and whatever substitution solves inputs and outputs factors through it |
| Unification.PairOnTopSound | crates/compiler/src/unification.rs:269-291 | stacks with such a pair on top: variables of the quotations and of the stacks below are solved together |
| Unification.PairOnTopPrincipal | crates/compiler/src/unification.rs:269-291 | and by a most general substitution, whenever one exists |
| Unification.NestedCounterexample | crates/compiler/src/unification.rs:34-39 | with a variable inside a quotation success does not mean agreement |
| Unification.RelaxationCounterexample | crates/compiler/src/unification.rs:176-190 | with Variant around, stacks that could agree are refused |
| UnificationLimits.GroundUnifies | crates/compiler/src/unification.rs:144-299 | a stack is unified with its instance in which all variables, nested ones too, are replaced by Int and the empty stack |
| UnificationLimits.SoundIffFlat | crates/compiler/src/unification.rs:34-54 | exactly the flat stacks agree, after unification, with whatever flat stack they are unified with |
| UnificationLimits.UnifyEnds | crates/compiler/src/unification.rs:144-299 | without row variables inside quotations the recursion ends, type variables anywhere, within a bound on its depth computed from the two stacks |
| UnificationLimits.TriggerPulls | crates/compiler/src/unification.rs:144-150 | a pair of quotations that is unified to a cyclic substitution: the halves of an effect are unified without looking inside each other, and composed |
| UnificationLimits.UnifyNeedNotEnd | crates/compiler/src/unification.rs:244-299 | with row variables inside quotations it need not end: two stacks for which no recursion depth is enough |
| Channel.ChannelData.Close | crates/runtime/src/channel.rs:99-123 | the flag is set, and the first close puts one sentinel at the end of the queue; it is the steps of a close call taken in a row |
| Channel.ChannelData.Send | crates/runtime/src/channel.rs:135-175 | on an open channel the value goes to the end of the queue and the answer is true, on a closed one nothing happens and it is false; it is the steps of a send call taken in a row |
| Channel.ChannelData.Receive | crates/runtime/src/channel.rs:186-220 | one attempt of `chan.receive`: it waits exactly on an empty queue and then changes nothing; otherwise it takes the first message, answers with its value, or false after putting the sentinel back; it is the steps of a receive call taken in a row |
| Channel.OneTokenStep | crates/runtime/src/channel.rs:108-120 | each step of any interleaving keeps: sentinels in the queue plus calls about to enqueue one are one when the flag is set and none otherwise |
| Channel.FifoStep | crates/runtime/src/channel.rs:157-171 | each step keeps: values taken out, in order, then values queued are the values put in, in order |
| Channel.GotStep | crates/runtime/src/channel.rs:198-204 | each step keeps: a receive returned ( v true ) exactly when it took v out, once |
| Channel.SentStep | crates/runtime/src/channel.rs:163-169 | each step keeps: a send returned true exactly when its value went in, once |
| Channel.MarkStep | crates/runtime/src/channel.rs:205-211 | each step keeps: the sentinel sits right behind the values sent before it until it is first taken, and those are all delivered from then on |
| Channel.ReachableInv | crates/runtime/src/channel.rs:99-220 | all of these hold after every run of any number of calls |
| Channel.CloseLeavesNobodyWaiting | crates/runtime/src/channel.rs:93-99 | with the flag set and nobody holding the sentinel the queue is not empty |
| Channel.DeliveredBeforeFalse | crates/runtime/src/channel.rs:205-211 | when a receive answers ( 0 false ) every value queued ahead of the sentinel was delivered, in order |
| Channel.SendAfterCloseRefused | crates/runtime/src/channel.rs:157-161 | a send whose flag load comes after the close never enqueues and never returns true, whatever happens next |
| Channel.SendWhileOpenGoesIn | crates/runtime/src/channel.rs:157-171 | a send whose flag load comes while the channel is open can go on at once and only returns true, its value in the queue, even if a close comes in between |
| Channel.ReachableAnswers | crates/runtime/src/channel.rs:108-161 | over every run: a send was refused, or a close returned, only on a closed channel, and only a close sets the flag |
| Channel.StuckIff | crates/runtime/src/channel.rs:179-220 | nothing can move exactly when all calls returned, or the channel is open and empty and only receives are left |
| Channel.ClosedCallsReturn | crates/runtime/src/channel.rs:93-123 | after a close, with no new calls, every run is bounded and one that cannot go on has answered every call |
| Channel.DrainedIff | crates/runtime/src/channel.rs:177-181 | the documented `closed and drained`: it holds on every continuation exactly when no send is between its check and its enqueue and no value is late already |
| Channel.CloseDrainsIff | crates/runtime/src/channel.rs:108-120 | at the moment the closer enqueues the sentinel that is: no send is in between |
| Dns.DnsCache.Get | crates/runtime/src/dns.rs:68-76 | a present, unexpired entry is returned and kept; otherwise the host's entry is removed |
| Dns.DnsCache.Put | crates/runtime/src/dns.rs:78-97 | the entry is there for 60 seconds, at most one other entry is dropped, and 256 entries are never exceeded |
| Dns.InFlight.AttachReply | crates/runtime/src/dns.rs:312-324 | the reply channel joins the host's entry; leader exactly when there was none |
| Dns.InFlight.Remove | crates/runtime/src/dns.rs:224-228 | all senders of the entry are handed over and the entry is gone |
| Dns.OwnedStep | crates/runtime/src/dns.rs:202-352 | each step keeps: an in-flight entry and its one owner (a leader before enqueueing, a queued job, a worker before removal) come and go together |
| Dns.PlacedStep | crates/runtime/src/dns.rs:202-352 | each step keeps: every reply channel is in exactly one place, once, with somebody who works for its host |
| Dns.HonestStep | crates/runtime/src/dns.rs:213-231 | each step keeps: cached and sent answers, empty ones too, were given by the lookup of that very host, and nobody is answered without a lookup while there are workers |
| Dns.ReachableInv | crates/runtime/src/dns.rs:202-352 | all of this holds in every state that any requesters and workers can reach |
| Dns.OneOwner | crates/runtime/src/dns.rs:302-345 | read off the program's own state: a host is in flight exactly when it has an owner, it has one, and no job is queued twice |
| Dns.OnePlace | crates/runtime/src/dns.rs:302-352 | a sender is nowhere twice, and a requester in recv has it with somebody who works for its host |
| Dns.FanReachesOwn | crates/runtime/src/dns.rs:229-231 | a worker replies only to requesters that wait for its host |
| Dns.AnswerReachesAll | crates/runtime/src/dns.rs:213-231 | everybody attached to a host when the lookup answers gets exactly that answer, whatever happens next, and has it when nothing can move |
| Dns.LateArriverServed | crates/runtime/src/dns.rs:306-324 | so does whoever attaches after that while the entry is there |
| Dns.EntryInOrder | crates/runtime/src/dns.rs:312-324 | an entry grows at its end only |
| Dns.FanInOrder | crates/runtime/src/dns.rs:224-231 | all its senders are replied to, in that order |
| Dns.JobsInOrder | crates/runtime/src/dns.rs:209-212 | over every run jobs are taken in the order in which they were queued |
| Dns.AnswerIsFinal | crates/runtime/src/dns.rs:344-352 | the first reply is the only one |
| Dns.AnswerIsOwn | crates/runtime/src/dns.rs:285-352 | every answer, an empty one too, was given by a lookup of the requester's own host, unless the name is empty or no worker could be spawned |
| Dns.StuckMeansAnswered | crates/runtime/src/dns.rs:202-352 | when nothing can move everybody is answered |
| Dns.EverybodyIsAnswered | crates/runtime/src/dns.rs:202-352 | with no new requests every run is bounded, and one that cannot go on has answered everybody, even when no worker could be spawned |
| Dns.CacheBounded | crates/runtime/src/dns.rs:78-88 | no step makes the cache exceed its limit |
| Dns.AttachesIffMissed | crates/runtime/src/dns.rs:302-324 | over every run: a requester attaches, as soon as it takes its next step, exactly when its own lookup found no unexpired entry |
| Dns.DoneNeverAttaches | crates/runtime/src/dns.rs:302-304 | one that has its answer is never attached, in no entry and with nobody, in any later state |
| Dns.MissAttaches | crates/runtime/src/dns.rs:306-324 | one that missed attaches with its next step, whatever is written to the cache in between |
| Dns.WriteServesLookUps | crates/runtime/src/dns.rs:214-223 | the true part of the comment: for 60 seconds after the cache write, unless the entry is dropped to make room, a lookup of the host is answered at once, with what was written last, and that requester never attaches |
| Dns.SecondLookup | crates/runtime/src/dns.rs:302-324 | the claim that a late arriver never attaches is false: one that missed the cache before the write leads a second lookup of a cached host |
| Values.TagRoundTrip | crates/core/src/tagged_stack.rs:69-83 | untagging a tagged integer gives it back in 63 bits, for every 64-bit integer |
| Values.TagExactIff | crates/core/src/tagged_stack.rs:69-83 | it survives exactly in the documented range |
| Values.UntagRoundTrip | crates/core/src/tagged_stack.rs:69-83 | every odd word is the tag of what it untags to |
| Values.WordKinds | crates/core/src/tagged_stack.rs:57-67 | a word is exactly one of integer, false, true, heap address |
| Values.KeysAreValues | crates/core/src/value.rs:118-138 | the map keys are exactly the integers, strings and Booleans, each its own key: the two conversions are inverse |
| Stack.ArcHeap.CloneValue | crates/core/src/stack.rs:116-130 | inline words are copied, a cell's count goes up by one |
| Stack.ArcHeap.DropValue | crates/core/src/stack.rs:136-145 | a cell's count goes down by one, and at one the cell is freed |
| Stack.ArcHeap.FromValue | crates/core/src/stack.rs:60-70 | integers and Bools inline, everything else in a fresh cell of count one |
| Stack.ArcHeap.ToValue | crates/core/src/stack.rs:78-94 | gives the value of the slot and gives up its reference |
| Stack.TaggedStack.Grow | crates/core/src/tagged_stack.rs:146-162 | the contents are kept, the capacity at least doubles and reaches the minimum |
| Stack.TaggedStack.Push | crates/core/src/tagged_stack.rs:165-173 | adds the word on top, growing when full |
| Stack.TaggedStack.Pop | crates/core/src/tagged_stack.rs:177-181 | takes the top word off |
| Stack.TaggedStack.CloneStack | crates/core/src/tagged_stack.rs:215-238 | a fresh stack of the same capacity with the same slots, each cloned once |
| Stack.TaggedStack.DoDup | crates/core/src/stack.rs:306-312 | slots and heap after `dup` |
| Stack.TaggedStack.DoDrop | crates/core/src/stack.rs:323-336 | slots and heap after `drop` |
| Stack.TaggedStack.DoSwap | crates/core/src/stack.rs:351-361 | slots after `swap` |
| Stack.TaggedStack.DoOver | crates/core/src/stack.rs:368-374 | slots and heap after `over` |
| Stack.TaggedStack.DoRot | crates/core/src/stack.rs:381-394 | slots after `rot` |
| Stack.TaggedStack.DoNip | crates/core/src/stack.rs:401-411 | slots and heap after `nip` |
| Stack.TaggedStack.DoTuck | crates/core/src/stack.rs:418-429 | slots and heap after `tuck` |
| Stack.TaggedStack.DoTwoDup | crates/core/src/stack.rs:436-445 | slots and heap after `2dup` |
| Stack.TaggedStack.PopIndex | crates/core/src/stack.rs:456-478 | the index is consumed; it is refused when it is no Int or negative |
| Stack.TaggedStack.DoPick | crates/core/src/stack.rs:504-518 | copies the item at the given depth on top, or reports the error and leaves the rest |
| Stack.TaggedStack.DoRoll | crates/core/src/stack.rs:525-553 | all branches move the item at the given depth on top and keep the others in order |
| Stack.TaggedStack.MoveDown | crates/core/src/stack.rs:547-550 | the memmove branch is that same move |
| Stack.SwapIsRoll | crates/core/src/stack.rs:535-537 | roll 1 as swap is that move |
| Stack.RotIsRoll | crates/core/src/stack.rs:538-540 | roll 2 as rot is that move |
| Stack.ShuffleEffects | crates/core/src/stack.rs:301-441 | the documented stack effects, on any stack |
| Stack.ShuffleLaws | crates/core/src/stack.rs:301-441 | the operations in terms of each other: dup is pick 0, over is pick 1, nip is swap drop, tuck is swap over, 2dup is over over |
| Stack.PickLaw | crates/core/src/stack.rs:504-519 | pick n copies the item n below the top, and refuses exactly what is no Int, negative or too deep |
| Stack.RollLaw | crates/core/src/stack.rs:525-575 | roll n brings that item to the top, those above go down by one, those below stay; roll 0 does nothing |
| Sharing.CloneCounted | crates/core/src/stack.rs:116-130 | cloning a slot keeps counts equal to occurrences over all stacks, and every value |
| Sharing.DropCounted | crates/core/src/stack.rs:136-145 | so does dropping one; the cell is freed exactly when that slot was the last |
| Sharing.BoxCounted | crates/core/src/stack.rs:60-70 | so does boxing a new value, at any address the allocator may pick |
| Sharing.ShuffleConserves | crates/core/src/stack.rs:306-445 | for every shuffle: what is left plus what is given up is what was found plus what was copied |
| Sharing.RollConserves | crates/core/src/stack.rs:525-553 | roll permutes the slots |
| Sharing.ShuffleShares | crates/core/src/stack.rs:306-445 | a shuffle keeps the counts, does to the values what its stack effect says, and leaves all other slots' values alone |
| Sharing.PickShares | crates/core/src/stack.rs:504-518 | so does pick, with the same errors as on plain values |
| Sharing.RollShares | crates/core/src/stack.rs:525-553 | so does roll |
| Sharing.CloneStackShares | crates/core/src/stack.rs:588-617 | so does cloning a whole stack; the copy has the same values |
| Sharing.Release | crates/core/src/tagged_stack.rs:240-257 | dropping a stack gives up each slot and leaves the counts of the others exact |
| MapOps.HeapMapMut | crates/core/src/stack.rs:262-276 | yields the map exactly when the slot is a cell that no other slot holds |
| MapOps.MapSet | crates/runtime/src/map_ops.rs:105-146 | the fast and the slow path of `map.set`, as the step whose meaning SetRefines gives |
| MapOps.MapRemove | crates/runtime/src/map_ops.rs:189-226 | the same for `map.remove` |
| MapOps.PopsShare | crates/core/src/stack.rs:181-187 | popping operands keeps counts and values of all slots that are left |
| MapOps.StillUnique | crates/runtime/src/map_ops.rs:107-124 | a map found unshared is still unshared, and the same, when the operands are popped |
| MapOps.MutateShares | crates/core/src/stack.rs:262-276 | writing into a cell of count one changes no other slot of any stack |
| MapOps.SetRefines | crates/runtime/src/map_ops.rs:105-146 | on both paths the result slot holds M[k := v], every other slot of every stack denotes what it did, counts stay exact, and it panics exactly when the key cannot be hashed or there is no map |
| MapOps.RemoveRefines | crates/runtime/src/map_ops.rs:189-226 | the same for M without k |
| MapOps.SetLaw | crates/runtime/src/map_ops.rs:105-146 | `map.set` in key values: exactly the new value is found under the key, every other key finds what it did, the slots below are untouched, and it panics exactly on no map or a key that cannot be hashed |
| MapOps.RemoveLaw | crates/runtime/src/map_ops.rs:189-226 | `map.remove` likewise: nothing is found under the key |
| SharedStacks.StepRefines | crates/core/src/stack.rs:60-145 | any operation of any strand keeps all counts exact and changes the stacks as if every value were copied |
| SharedStacks.RunRefines | crates/core/src/stack.rs:306-617 | so does every run of any strands, stack cloning and stack dropping included |
| SharedStacks.PureStepLaw | crates/core/src/stack.rs:156-200 | what copying semantics promises: an operation changes its own stack only, a clone is a copy, a pushed value is popped again, an integer in 63 bits |
| SharedStacks.PanicsAgree | crates/runtime/src/map_ops.rs:105-226 | map operations panic exactly where the pure ones have no meaning |
| SharedStacks.CountsAreOccurrences | crates/core/src/stack.rs:60-145 | after any run from an empty heap a cell exists exactly when a slot of some stack holds it, and its count is their number |
| Tcp.SocketRegistry.AllocateId | crates/runtime/src/tcp.rs:94-110 | the method computes the allocation that AllocatePartition describes |
| Tcp.SocketRegistry.FreeId | crates/runtime/src/tcp.rs:116-123 | a live slot is emptied and its id freed; any other id is left alone |
| Tcp.SocketRegistry.Release | crates/runtime/src/tcp.rs:141-150 | an empty slot's id goes on the free list unless it is there |
| Tcp.SocketRegistry.TakeOut | crates/runtime/src/tcp.rs:535-544 | takes the socket out and leaves the slot empty |
| Tcp.SocketRegistry.PutBack | crates/runtime/src/tcp.rs:566-572 | puts a socket into the slot |
| Tcp.AllocatePartition | crates/runtime/src/tcp.rs:94-110 | a new id was neither live nor reserved, no other id changes, and only a full registry refuses |
| Tcp.FreePartition | crates/runtime/src/tcp.rs:116-123 | freeing keeps the partition into live, reserved and free |
| Tcp.TakePartition | crates/runtime/src/tcp.rs:177-188 | taking a socket out moves its id from live to reserved |
| Tcp.PutPartition | crates/runtime/src/tcp.rs:241-244 | putting it back moves it to live again |
| Tcp.ReleasePartition | crates/runtime/src/tcp.rs:141-150 | releasing a reserved id always frees it |
| Tcp.FreeSkipsReserved | crates/runtime/src/tcp.rs:126-140 | plain free would leak it, as the comment says |
| Tcp.StepKeepsInv | crates/runtime/src/tcp.rs:177-252 | over every interleaving each id is exactly one of live, reserved by one strand, or once on the free list, and MAX_SOCKETS is kept |
| Tcp.BoundIff | crates/runtime/src/tcp.rs:83-110 | an id stands for a connection exactly when it is live or reserved, never when free |
| Tcp.BoundOnce | crates/runtime/src/tcp.rs:83-110 | and for one connection only |
| Tcp.IdKeepsConnection | crates/runtime/src/tcp.rs:213-252 | over every run an id means the same connection until it is closed or its upgrade fails |
| Tcp.IdKeepsStream | crates/runtime/src/tcp.rs:213-252 | over every run an id stands for the same stream until it is closed, and for the TLS stream over that connection from the moment a handshake on it succeeds |
| Tcp.UseRestores | crates/runtime/src/tcp.rs:523-572 | a read or write takes a live stream out, reserves its id, and leaves everything as it was; on any other id nothing happens |
| Tcp.AcceptRestores | crates/runtime/src/tcp.rs:452-515 | so does an accept, but for the connection it got |
| Tcp.UpgradeTakesPlain | crates/runtime/src/tcp.rs:177-188 | exactly a live plain stream is taken for a handshake |
| Tcp.NegativeIdIsNothing | crates/runtime/src/tcp.rs:658-697 | no operation does anything on a negative id |
| Tcp.ConnectBinds | crates/runtime/src/tcp.rs:386-447 | a new connection gets an id that stood for nothing, as a plain stream, unless the registry is full |
| Tcp.ListenBinds | crates/runtime/src/tcp.rs:328-380 | so does a new listener |
| Tcp.RegisterBinds | crates/runtime/src/tcp.rs:502-513 | and an accepted connection |
| Tcp.CloseFreesStreamIff | crates/runtime/src/tcp.rs:674-685 | closing frees a stream id exactly when it is live; it then stands for nothing and no listener is touched |
| Tcp.CloseFreesListenerIff | crates/runtime/src/tcp.rs:674-697 | closing frees a listener exactly when one is live at the number and no stream is: a stream in use by another strand does not shield it |
| Tcp.IdKeepsListener | crates/runtime/src/tcp.rs:668-697 | over every run a listener id means the same listener until such a close |
| Tcp.NewlyBound | crates/runtime/src/tcp.rs:94-110 | a connection gets an id only by allocation, and one that stood for nothing |
| Resolver.Resolver.Resolve | crates/compiler/src/resolver.rs:82-130 | resolution ends on every include graph; success gives every word and union of exactly the reachable modules, once, in the order in which the modules are met, each with its name and line and located in its module, with the files and embedded modules met and the foreign libraries that the trace of the walk leaves, and then every include of theirs can be followed; failure means that a reachable module has a broken include |
| Resolver.Resolver.ResolveFile | crates/compiler/src/resolver.rs:82-130 | marks the file, and gives its definitions followed by those its includes newly reach |
| Resolver.Resolver.ProcessIncludes | crates/compiler/src/resolver.rs:109-113 | the loop over includes joins the walks of the single ones |
| Resolver.Resolver.ProcessInclude | crates/compiler/src/resolver.rs:133-165 | a foreign library adds nothing, everything else is walked or refused |
| Resolver.Resolver.ProcessEmbeddedInclude | crates/compiler/src/resolver.rs:168-213 | an embedded module is entered once, and its includes start from the includer's directory |
| Resolver.Resolver.ProcessFileInclude | crates/compiler/src/resolver.rs:216-240 | a file is entered once, and refused when it cannot be read |
| Resolver.WalkConcat | crates/compiler/src/resolver.rs:109-113 | walks join: new modules stay distinct and linked to the roots |
| Resolver.EnterModule | crates/compiler/src/resolver.rs:203-212 | a module and the walk of its includes make one walk |
| Resolver.WalkReaches | crates/compiler/src/resolver.rs:133-240 | every module met is reachable |
| Resolver.CompleteReaches | crates/compiler/src/resolver.rs:133-240 | every reachable module is met |
| Resolver.SameGraphIff | crates/compiler/src/resolver.rs:168-213 | the module graph does not depend on who includes an embedded module first exactly when every file that a relative include of an embedded module finds anywhere is also included from the standard library by it |
| Resolver.SameFaultsIff | crates/compiler/src/resolver.rs:168-213 | which modules have a broken include does not depend on it exactly when an embedded module with a relative include has a broken one from every known directory |
| Resolver.FirstIncluderMatters | crates/compiler/src/resolver.rs:203-204 | a table on which the graph does depend on it |
| Resolver.TraceAllNames | crates/compiler/src/resolver.rs:132-231 | a walk names exactly the foreign includes of the modules it met, and has the list taken exactly if it met a file |
| Resolver.LibrariesKept | crates/compiler/src/resolver.rs:123-128 | a foreign library is returned, once, exactly when it is named after the last included file is done; without an included file exactly the libraries of all reachable modules are returned |
| Resolver.LibraryLost | crates/compiler/src/resolver.rs:123-128 | a library named before the include of a file is lost, and is kept when the two includes are swapped |
| Resolver.DefsConcat | crates/compiler/src/resolver.rs:109-113 | definitions of a joined walk are the definitions of its parts |
| Resolver.DefsJoined | crates/compiler/src/resolver.rs:98-106 | the merged definitions are those the parser gave, module by module, with their own names and lines (line 0 where there was none) and their module as origin |
| Resolver.TraceConcat | crates/compiler/src/resolver.rs:109-113 | includes are followed in order, each from where the one before left off |
| Resolver.TraceEnters | crates/compiler/src/resolver.rs:168-235 | a module met for the first time comes before what its own includes newly reach, relative to its directory or, for an embedded one, to its includer's |
| Resolver.EmbeddedFirst | crates/compiler/src/resolver.rs:243-265 | what the stdlib directory holds under the name of an embedded module does not matter |
| Resolver.IncludeLeads | crates/compiler/src/resolver.rs:243-310 | where an include leads, and that an empty or absolute path is broken from everywhere |

## Left out

- Unification.UnifySound: no variable inside a Quotation or Closure at an element position; `apply_type` does not look inside them (`crates/compiler/src/unification.rs:34-39`), and `UnificationLimits.SoundIffFlat` shows that the claim is false for every other stack.
- Unification.UnifyPrincipal: equality, not agreement; up to the Union/Variant relaxation the code is not complete (`Unification.RelaxationCounterexample`). Which stacks are refused although their names are not apart depends on the order in which variables are bound and is not described.
- Unification.UnifyEffectsSound: one level of quotation with variables; the inputs and outputs are flat.
- UnificationLimits.UnifyEnds: sufficient; some stacks with row variables inside quotations end as well (`Unification.UnifyPrincipal`).
- Unification.UnifyStacks: the model bounds the recursion by a number; `Unification.MoreFuelStacks` says that a larger one changes no result.
- LoweringCorrect.WordAgrees: of the builtins that run or move quotations the semantics has call, dip, keep, bi, if and the shuffles without an index; `cond`, `pick`, `roll`, `variant.make-5` and up, and the list and map combinators are left out, and so are `>aux` and `aux>`, closure captures, concurrency and I/O. Any other builtin is a function on stacks without quotations.
- Semantics.Exec: an integer on the stack is unbounded, where the runtime keeps 63 bits; nested entries are bounded by a number, and `Semantics.MoreFuel` says that a larger one changes no run that ended.
- CallGraph.Build: the iteration order of hash sets is arbitrary, so are the orders of components and of the visits.
- Channel.ChannelData.Send: wrong types on the stack, and the answer after all handles are dropped. The queue is first in, first out, and a send succeeds while a handle is held.
- Dns.DnsCache.Put: time is counted in seconds and each critical section is one step; poisoned locks, panicking workers, the test hooks and `resolve_to_ips` are left out.
- Dns.HonestStep: what `getaddrinfo` gives, and the removal of duplicates from it, is an input.
- Stack.TaggedStack.DoRoll: asks that roll 1 and roll 2 have the slots they move, as the safety comment does; those branches do not check the depth.
- Stack.TaggedStack.DoDup: the shuffle operations ask for room for what they push, as their safety comments do; only Push grows the buffer.
- MapOps.MapSet: a value that is not Int, Bool, String or Map is opaque, and a count is the number of slots; references held by running Rust code between steps are not counted.
- Tcp.StepKeepsInv: a socket is a number; reading, writing, the handshake and the limits of the operating system are left out, and so is `net.tcp.local_port`.
- Resolver.Resolver.Resolve: absolute paths are those that start with a slash.
- The type checker, the weave and scheduler internals, the parser and the code generator: only what the models above cite of them.
- The other map operations, strings, lists, floating-point arithmetic, SON, and the REPL and language server.
- UTF-8, diagnostics counters and memory statistics.
