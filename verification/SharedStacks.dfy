/** Any number of strands, each with its own stack, over one counted heap: whatever they do, the
    counts stay exact and the stacks behave as if every value were copied. */
module SharedStacks {
  import opened MapOps
  import opened Sharing
  import opened Stack
  import opened Values
  import opened Wrappers

  datatype Machine = Machine(cells: Cells, stacks: seq<seq<Word>>)

  datatype Action =
    | Do(k: nat, op: Shuffle)
    | Push(k: nat, v: Value, addr: Word)
    | Pop(k: nat)
    | Pick(k: nat)
    | Roll(k: nat)
    | SetKey(k: nat, addr: Word)       // map.set
    | RemoveKey(k: nat, addr: Word)    // map.remove
    | Spawn(k: nat)                    // a new strand starts with a clone of stack k
    | Finish(k: nat)                   // stack k is dropped

  function Top<T>(s: seq<T>): T
    requires s != []
  {
    s[|s| - 1]
  }

  function Rest<T>(s: seq<T>): seq<T>
    requires s != []
  {
    s[..|s| - 1]
  }

  /** Roll 1 and roll 2 rely on the depth being there. */
  predicate RollDeepEnough(depth: nat, index: Option<nat>) {
    index == Some(1) || index == Some(2) ==> index.value < depth
  }

  predicate Enabled(m: Machine, a: Action) {
    a.k < |m.stacks| &&
    var (c, s) := (m.cells, m.stacks[a.k]);
    match a
    case Do(_, op) => |s| >= Needs(op)
    case Push(_, v, addr) => FreeAddress(c, addr)
    case Pop(_) => s != []
    case Pick(_) => s != []
    case Roll(_) => s != [] && RollDeepEnough(|s| - 1, IndexOf(Denote(c, Top(s))))
    case SetKey(_, addr) => |s| >= 3 && FreeAddress(PopCells(c, s, 3), addr) && SetStep(c, s, addr).Some?
    case RemoveKey(_, addr) => |s| >= 2 && FreeAddress(PopCells(c, s, 2), addr) && RemoveStep(c, s, addr).Some?
    case Spawn(_) => true
    case Finish(_) => true
  }

  /** What the action does to its own stack and to the heap. */
  function Local(c: Cells, s: seq<Word>, a: Action): (Cells, seq<Word>)
    requires Enabled(Machine(c, [s]), a.(k := 0))
  {
    match a
    case Do(_, op) => (ShuffleCells(c, op, s), Shuffled(op, s))
    case Push(_, v, addr) => (Box(c, v, addr), s + [Boxed(v, addr)])
    case Pop(_) => (DropWord(c, Top(s)), Rest(s))
    case Pick(_) =>
      var index := IndexOf(Denote(c, Top(s)));
      (PickCells(DropWord(c, Top(s)), Rest(s), index), Picked(Rest(s), index).0)
    case Roll(_) => (DropWord(c, Top(s)), Rolled(Rest(s), IndexOf(Denote(c, Top(s)))).0)
    case SetKey(_, addr) => SetStep(c, s, addr).value
    case RemoveKey(_, addr) => RemoveStep(c, s, addr).value
    case Spawn(_) => (CloneWords(c, s), s)
    case Finish(_) => (DropWords(c, s), [])
  }

  function Step(m: Machine, a: Action): Machine
    requires Enabled(m, a)
  {
    var (c, s) := Local(m.cells, m.stacks[a.k], a);
    Machine(c, if a.Spawn? then m.stacks + [s] else m.stacks[a.k := s])
  }

  // ---- The same actions on plain values ----

  predicate PureEnabled(s: seq<Value>, a: Action) {
    match a
    case Do(_, op) => |s| >= Needs(op)
    case Push(_, _, _) => true
    case Pop(_) => s != []
    case Pick(_) => s != []
    case Roll(_) => s != [] && RollDeepEnough(|s| - 1, IndexOf(Top(s)))
    case SetKey(_, _) => |s| >= 3 && PureSet(s).Some?
    case RemoveKey(_, _) => |s| >= 2 && PureRemove(s).Some?
    case Spawn(_) => true
    case Finish(_) => true
  }

  function PureLocal(s: seq<Value>, a: Action): seq<Value>
    requires PureEnabled(s, a)
  {
    match a
    case Do(_, op) => Shuffled(op, s)
    case Push(_, v, _) => s + [Stored(v)]
    case Pop(_) => Rest(s)
    case Pick(_) => Picked(Rest(s), IndexOf(Top(s))).0
    case Roll(_) => Rolled(Rest(s), IndexOf(Top(s))).0
    case SetKey(_, _) => PureSet(s).value
    case RemoveKey(_, _) => PureRemove(s).value
    case Spawn(_) => s
    case Finish(_) => []
  }

  function PureStep(stacks: seq<seq<Value>>, a: Action): seq<seq<Value>>
    requires a.k < |stacks| && PureEnabled(stacks[a.k], a)
  {
    var s := PureLocal(stacks[a.k], a);
    if a.Spawn? then stacks + [s] else stacks[a.k := s]
  }

  /** What copying semantics promises: an action changes its own stack only, a new strand starts with
      a copy, and a pushed value is popped again, an integer in 63 bits. */
  lemma PureStepLaw(stacks: seq<seq<Value>>, a: Action, v: Value, addr: Word)
    requires a.k < |stacks| && PureEnabled(stacks[a.k], a)
    ensures var after := PureStep(stacks, a);
            && (!a.Spawn? ==>
                  |after| == |stacks| && forall i :: 0 <= i < |stacks| && i != a.k ==> after[i] == stacks[i])
            && (a.Spawn? ==> after == stacks + [stacks[a.k]])
            && (a.Finish? ==> after[a.k] == [])
            && (a.Pop? ==> stacks[a.k] == after[a.k] + [Top(stacks[a.k])])
    ensures var pushed := PureStep(stacks, Push(a.k, v, addr));
            && Top(pushed[a.k]) == (if v.Int? then Int(Wrap63(v.i)) else v)
            && PureEnabled(pushed[a.k], Pop(a.k)) && PureStep(pushed, Pop(a.k)) == stacks
  {
    hide PureSet, PureRemove, Shuffled, Picked, Rolled;
  }

  // ---- Counts over all stacks ----

  function AllSlots(stacks: seq<seq<Word>>): multiset<Word> {
    if stacks == [] then multiset{} else multiset(stacks[0]) + AllSlots(stacks[1..])
  }

  /** The slots of all stacks but k. */
  function Others(stacks: seq<seq<Word>>, k: nat): multiset<Word>
    requires k < |stacks|
  {
    AllSlots(stacks[..k]) + AllSlots(stacks[k + 1..])
  }

  ghost predicate CountsExact(m: Machine) {
    Counted(m.cells, AllSlots(m.stacks))
  }

  function Meaning(m: Machine): (r: seq<seq<Value>>)
    ensures |r| == |m.stacks|
  {
    seq(|m.stacks|, i requires 0 <= i < |m.stacks| => Contents(m.cells, m.stacks[i]))
  }

  lemma {:induction false} AllSlotsConcat(a: seq<seq<Word>>, b: seq<seq<Word>>)
    ensures AllSlots(a + b) == AllSlots(a) + AllSlots(b)
    decreases a
  {
    if a == [] {
      assert a + b == b;
    } else {
      assert (a + b)[1..] == a[1..] + b;
      AllSlotsConcat(a[1..], b);
    }
  }

  lemma AllSlotsUpdate(stacks: seq<seq<Word>>, k: nat, s: seq<Word>)
    requires k < |stacks|
    ensures AllSlots(stacks) == multiset(stacks[k]) + Others(stacks, k)
    ensures AllSlots(stacks[k := s]) == multiset(s) + Others(stacks, k)
  {
    AllSlotsOne(stacks[k]);
    AllSlotsOne(s);
    assert stacks == stacks[..k] + [stacks[k]] + stacks[k + 1..];
    assert stacks[k := s] == stacks[..k] + [s] + stacks[k + 1..];
    AllSlotsConcat(stacks[..k], [stacks[k]]);
    AllSlotsConcat(stacks[..k] + [stacks[k]], stacks[k + 1..]);
    AllSlotsConcat(stacks[..k], [s]);
    AllSlotsConcat(stacks[..k] + [s], stacks[k + 1..]);
  }

  lemma AllSlotsOne(s: seq<Word>)
    ensures AllSlots([s]) == multiset(s)
  {
    assert [s][1..] == [];
  }

  lemma {:induction false} StackIn(stacks: seq<seq<Word>>, i: nat)
    requires i < |stacks|
    ensures multiset(stacks[i]) <= AllSlots(stacks)
    decreases stacks
  {
    if i > 0 { StackIn(stacks[1..], i - 1); }
  }

  lemma StackInOthers(stacks: seq<seq<Word>>, k: nat, i: nat)
    requires i < |stacks| && k < |stacks| && i != k
    ensures multiset(stacks[i]) <= Others(stacks, k)
  {
    if i < k { StackIn(stacks[..k], i); } else { StackIn(stacks[k + 1..], i - k - 1); }
  }

  // ---- Refinement ----

  /** An action on its own stack, with everything else as others. */
  lemma LocalRefines(c: Cells, s: seq<Word>, a: Action, others: multiset<Word>)
    requires Counted(c, multiset(s) + others) && Enabled(Machine(c, [s]), a.(k := 0)) && !a.Spawn?
    ensures PureEnabled(Contents(c, s), a)
    ensures var (c', s') := Local(c, s, a);
            && Counted(c', multiset(s') + others)
            && Contents(c', s') == PureLocal(Contents(c, s), a)
            && Kept(c, c', others)
  {
    hide Counted, Kept, Denote, PopCells, SetStep, RemoveStep, PureSet, PureRemove, ShuffleCells, Shuffled,
         DropWord, DropWords, FreeAddress, Box, PickCells, Picked, Rolled;
    match a
    case Do(_, op) => ShuffleShares(c, op, s, others);
    case Push(_, v, addr) => PushShares(c, s, others, v, addr);
    case Pop(_) => PopKeeps(c, s, others);
    case Pick(_) =>
      PopKeeps(c, s, others);
      PickShares(DropWord(c, Top(s)), Rest(s), others, IndexOf(Denote(c, Top(s))));
      KeptTrans(c, DropWord(c, Top(s)), Local(c, s, a).0, others, others);
    case Roll(_) =>
      PopKeeps(c, s, others);
      RollShares(DropWord(c, Top(s)), Rest(s), others, IndexOf(Denote(c, Top(s))));
    case SetKey(_, addr) => SetRefines(c, s, others, addr);
    case RemoveKey(_, addr) => RemoveRefines(c, s, others, addr);
    case Finish(_) =>
      DropsCounted(c, multiset(s) + others, s);
      assert multiset(s) + others - multiset(s) == others == multiset([]) + others;
  }

  lemma PopKeeps(c: Cells, s: seq<Word>, others: multiset<Word>)
    requires s != [] && Counted(c, multiset(s) + others)
    ensures Counted(DropWord(c, Top(s)), multiset(Rest(s)) + others)
    ensures Contents(c, s) != [] && Top(Contents(c, s)) == Denote(c, Top(s))
    ensures Contents(DropWord(c, Top(s)), Rest(s)) == Rest(Contents(c, s))
    ensures Kept(c, DropWord(c, Top(s)), others)
  {
    hide Counted, Kept, Denote, DropWord;
    PopShares(c, s, others);
    KeptSub(c, DropWord(c, Top(s)), multiset(Rest(s)) + others, others);
  }

  /** Sharing does not show: a step keeps the counts exact, and the values of all stacks change
      as they would if every stack had its own copies. */
  lemma StepRefines(m: Machine, a: Action)
    requires CountsExact(m) && Enabled(m, a)
    ensures CountsExact(Step(m, a))
    ensures PureEnabled(Meaning(m)[a.k], a)
    ensures Meaning(Step(m, a)) == PureStep(Meaning(m), a)
  {
    hide Counted, Kept, Local, PureLocal, PureEnabled, Contents, AllSlots;
    var s := m.stacks[a.k];
    AllSlotsUpdate(m.stacks, a.k, s);
    if a.Spawn? {
      SpawnRefines(m, a.k);
    } else {
      var others := Others(m.stacks, a.k);
      EnabledLocally(m, a);
      LocalRefines(m.cells, s, a, others);
      var (c', s') := Local(m.cells, s, a);
      AllSlotsUpdate(m.stacks, a.k, s');
      forall i | 0 <= i < |m.stacks| && i != a.k ensures Contents(c', m.stacks[i]) == Contents(m.cells, m.stacks[i]) {
        StackInOthers(m.stacks, a.k, i);
        KeptContents(m.cells, c', others, m.stacks[i]);
      }
    }
  }

  lemma EnabledLocally(m: Machine, a: Action)
    requires Enabled(m, a)
    ensures Enabled(Machine(m.cells, [m.stacks[a.k]]), a.(k := 0))
  {
  }

  lemma SpawnRefines(m: Machine, k: nat)
    requires CountsExact(m) && k < |m.stacks|
    ensures CountsExact(Step(m, Spawn(k)))
    ensures Meaning(Step(m, Spawn(k))) == Meaning(m) + [Meaning(m)[k]]
    ensures PureEnabled(Meaning(m)[k], Spawn(k)) && PureLocal(Meaning(m)[k], Spawn(k)) == Meaning(m)[k]
  {
    hide Counted, Kept, CloneWords, Contents, AllSlots;
    var (s, slots) := (m.stacks[k], AllSlots(m.stacks));
    StackIn(m.stacks, k);
    CloneStackShares(m.cells, s, slots);
    AllSlotsConcat(m.stacks, [s]);
    AllSlotsOne(s);
    forall i | 0 <= i < |m.stacks| ensures Contents(CloneWords(m.cells, s), m.stacks[i])
        == Contents(m.cells, m.stacks[i]) {
      StackIn(m.stacks, i);
      KeptContents(m.cells, CloneWords(m.cells, s), slots, m.stacks[i]);
    }
  }

  predicate CanRun(m: Machine, run: seq<Action>)
    decreases run
  {
    run == [] || (Enabled(m, run[0]) && CanRun(Step(m, run[0]), run[1..]))
  }

  function Run(m: Machine, run: seq<Action>): Machine
    requires CanRun(m, run)
    decreases run
  {
    if run == [] then m else Run(Step(m, run[0]), run[1..])
  }

  predicate PureCanRun(stacks: seq<seq<Value>>, run: seq<Action>)
    decreases run
  {
    run == [] || (run[0].k < |stacks| && PureEnabled(stacks[run[0].k], run[0])
        && PureCanRun(PureStep(stacks, run[0]), run[1..]))
  }

  function PureRun(stacks: seq<seq<Value>>, run: seq<Action>): seq<seq<Value>>
    requires PureCanRun(stacks, run)
    decreases run
  {
    if run == [] then stacks else PureRun(PureStep(stacks, run[0]), run[1..])
  }

  /** And so for every run of any strands. */
  lemma {:induction false} RunRefines(m: Machine, run: seq<Action>)
    requires CountsExact(m) && CanRun(m, run)
    ensures CountsExact(Run(m, run))
    ensures PureCanRun(Meaning(m), run) && Meaning(Run(m, run)) == PureRun(Meaning(m), run)
    decreases run
  {
    hide CountsExact, Enabled, Step, PureEnabled, PureStep, Meaning;
    if run != [] {
      StepRefines(m, run[0]);
      RunRefines(Step(m, run[0]), run[1..]);
      AtStack(m, run[0]);
    }
  }

  lemma AtStack(m: Machine, a: Action)
    requires Enabled(m, a)
    ensures a.k < |Meaning(m)|
  {
  }

  /** A map operation the pure program can do does not panic here either. */
  lemma PanicsAgree(m: Machine, k: nat, addr: Word)
    requires CountsExact(m) && k < |m.stacks|
    ensures |m.stacks[k]| >= 3 && FreeAddress(PopCells(m.cells, m.stacks[k], 3), addr) ==>
              (Enabled(m, SetKey(k, addr)) <==> PureEnabled(Meaning(m)[k], SetKey(k, addr)))
    ensures |m.stacks[k]| >= 2 && FreeAddress(PopCells(m.cells, m.stacks[k], 2), addr) ==>
              (Enabled(m, RemoveKey(k, addr)) <==> PureEnabled(Meaning(m)[k], RemoveKey(k, addr)))
  {
    hide Counted, Kept, PopCells, Contents, AllSlots, SetStep, RemoveStep, PureSet, PureRemove, FreeAddress;
    var s := m.stacks[k];
    AllSlotsUpdate(m.stacks, k, s);
    if |s| >= 3 && FreeAddress(PopCells(m.cells, s, 3), addr) { SetRefines(m.cells, s, Others(m.stacks, k), addr); }
    if |s| >= 2 && FreeAddress(PopCells(m.cells, s, 2), addr) { RemoveRefines(m.cells, s, Others(m.stacks, k), addr); }
  }

  /** Reference-count conservation, read off: after any run from an empty heap a cell is there
      exactly when some slot holds it, and its count is the number of slots that do. */
  lemma CountsAreOccurrences(run: seq<Action>, strands: nat, a: Word)
    requires CanRun(Machine(map[], seq(strands, _ => [])), run) && !IsInline(a)
    ensures var m := Run(Machine(map[], seq(strands, _ => [])), run);
            && (a in m.cells <==> AllSlots(m.stacks)[a] > 0)
            && (a in m.cells ==> m.cells[a].count == AllSlots(m.stacks)[a])
  {
    hide Enabled, Step;
    var m := Machine(map[], seq(strands, _ => []));
    NoSlots(m.stacks);
    RunRefines(m, run);
  }

  lemma {:induction false} NoSlots(stacks: seq<seq<Word>>)
    requires forall i :: 0 <= i < |stacks| ==> stacks[i] == []
    ensures AllSlots(stacks) == multiset{}
    decreases stacks
  {
    if stacks != [] { NoSlots(stacks[1..]); }
  }
}
