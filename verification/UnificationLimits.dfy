/** How far the results on unification reach (crates/compiler/src/unification.rs): soundness needs
    flat stacks, and with row variables inside quotations the recursion need not end. */
module UnificationLimits {
  import opened Types
  import opened Wrappers
  import opened Unification

  // ---- Soundness needs flat stacks ----

  /** Every type variable replaced by Int and every row variable by the empty stack, at any depth. */
  function GroundType(t: Type): Type
    decreases t
  {
    match t
    case Var(_) => Int
    case Quotation(e) => Quotation(Effect(GroundStack(e.inputs), GroundStack(e.outputs)))
    case Closure(e, captures) => Closure(Effect(GroundStack(e.inputs), GroundStack(e.outputs)), captures)
    case _ => t
  }

  function GroundStack(st: StackType): StackType
    decreases st
  {
    match st
    case Empty => Empty
    case RowVar(_) => Empty
    case Cons(rest, top) => Cons(GroundStack(rest), GroundType(top))
  }

  /** Binds every variable as the ground instance does. */
  ghost predicate Grounding(s: Subst) {
    && (forall x :: x in s.types ==> s.types[x] == Int)
    && (forall r :: r in s.rows ==> s.rows[r] == Empty)
  }

  lemma {:induction false} GroundVarFree(st: StackType)
    ensures VarFreeStack(GroundStack(st)) && StackTypeVars(GroundStack(st)) == {} && RowVars(GroundStack(st)) == {}
    decreases st
  {
    if st.Cons? {
      GroundVarFree(st.rest);
      GroundTypeVarFree(st.top);
    }
  }

  lemma {:induction false} GroundTypeVarFree(t: Type)
    ensures VarFree(GroundType(t)) && !GroundType(t).Var?
    decreases t
  {
    hide VarFreeStack, StackTypeVars, RowVars;
    if t.Quotation? || t.Closure? {
      GroundVarFree(t.effect.inputs);
      GroundVarFree(t.effect.outputs);
    }
  }

  /** A part of the ground instance has been put in already. */
  lemma {:induction false} GroundApply(s: Subst, st: StackType)
    requires Grounding(s)
    ensures GroundStack(ApplyStack(s, st)) == GroundStack(st) && StackSize(ApplyStack(s, st)) <= StackSize(st)
    ensures ApplyStack(s, GroundStack(st)) == GroundStack(st)
  {
    GroundVarFree(st);
    ApplyOutside(s, GroundStack(st));
    hide VarFreeStack, StackTypeVars, RowVars;
    if st.Cons? {
      GroundApply(s, st.rest);
      assert GroundType(ApplyType(s, st.top)) == GroundType(st.top);
    }
  }

  lemma ComposeGrounding(a: Subst, b: Subst)
    requires Grounding(a) && Grounding(b)
    ensures Grounding(Compose(a, b))
  {
  }

  ghost predicate Grounds(r: Result<Subst, Error>) {
    r.Ok? && Grounding(r.value)
  }

  /** A stack is unified with its ground instance, by a substitution that reaches only the surface. */
  lemma {:induction false} GroundUnifies(st: StackType, fuel: nat)
    requires StackSize(st) <= fuel
    ensures Grounds(UnifyStacks(st, GroundStack(st), fuel))
    decreases fuel, 0
  {
    hide UnifyTypes, Compose, ApplyStack, Grounding;
    match st
    case Empty => NothingGrounds();
    case RowVar(r) => RowGrounds(r);
    case Cons(rest, top) =>
      GroundTypeUnifies(top, fuel - 1);
      var a := UnifyTypes(top, GroundType(top), fuel - 1).value;
      GroundApply(a, rest);
      GroundUnifies(ApplyStack(a, rest), fuel - 1);
      ComposeGrounding(a, UnifyStacks(ApplyStack(a, rest), GroundStack(rest), fuel - 1).value);
  }

  lemma NothingGrounds()
    ensures Grounding(NO_SUBST)
  {
  }

  lemma RowGrounds(r: string)
    ensures Grounds(BindRow(r, Empty))
  {
  }

  lemma {:induction false} GroundTypeUnifies(t: Type, fuel: nat)
    requires TypeSize(t) <= fuel
    ensures Grounds(UnifyTypes(t, GroundType(t), fuel))
    decreases fuel, 0
  {
    hide UnifyEffects, GroundStack, StackSize;
    if t.Quotation? || t.Closure? { GroundEffectUnifies(t.effect, fuel - 1); }
  }

  lemma {:induction false} GroundEffectUnifies(e: Effect, fuel: nat)
    requires StackSize(e.inputs) <= fuel && StackSize(e.outputs) <= fuel
    ensures Grounds(UnifyEffects(e, Effect(GroundStack(e.inputs), GroundStack(e.outputs)), fuel))
    decreases fuel, 1
  {
    hide UnifyStacks, Compose, ApplyStack, GroundStack, StackSize, Grounding;
    GroundUnifies(e.inputs, fuel);
    var a := UnifyStacks(e.inputs, GroundStack(e.inputs), fuel).value;
    GroundApply(a, e.outputs);
    GroundUnifies(ApplyStack(a, e.outputs), fuel);
    ComposeGrounding(a, UnifyStacks(ApplyStack(a, e.outputs), GroundStack(e.outputs), fuel).value);
  }

  lemma {:induction false} AgreesWithGround(t: Type)
    requires AgreeTypes(t, GroundType(t))
    ensures VarFree(t)
    decreases t
  {
    hide AgreeStacks, GroundStack, VarFreeStack;
    if t.Quotation? || t.Closure? {
      StackAgreesWithGround(t.effect.inputs);
      StackAgreesWithGround(t.effect.outputs);
    }
  }

  lemma {:induction false} StackAgreesWithGround(st: StackType)
    requires AgreeStacks(st, GroundStack(st))
    ensures VarFreeStack(st)
    decreases st
  {
    hide AgreeTypes, GroundType, VarFree;
    if st.Cons? {
      StackAgreesWithGround(st.rest);
      AgreesWithGround(st.top);
    }
  }

  /** Substitution never gets to the variables inside quotations. */
  lemma {:induction false} SurfaceOnly(s: Subst, st: StackType)
    requires AgreeStacks(ApplyStack(s, st), GroundStack(st))
    ensures Flat(st)
  {
    hide VarFree, AgreeTypes, GroundType;
    if st.Cons? {
      SurfaceOnly(s, st.rest);
      if !st.top.Var? { AgreesWithGround(st.top); }
    }
  }

  lemma {:induction false} GroundFlat(st: StackType)
    ensures Flat(GroundStack(st))
  {
    hide VarFree;
    if st.Cons? {
      GroundFlat(st.rest);
      GroundTypeVarFree(st.top);
    }
  }

  /** Success means agreement. */
  ghost predicate SoundAt(s1: StackType, s2: StackType, fuel: nat) {
    var r := UnifyStacks(s1, s2, fuel);
    r.Ok? ==> AgreeStacks(ApplyStack(r.value, s1), ApplyStack(r.value, s2))
  }

  /** Exactly the flat stacks agree with whatever flat stack they are unified with. */
  lemma SoundIffFlat(s1: StackType)
    ensures (forall s2, fuel: nat | Flat(s2) :: SoundAt(s1, s2, fuel)) <==> Flat(s1)
  {
    hide SoundAt, Flat;
    if Flat(s1) {
      forall s2, fuel: nat | Flat(s2) ensures SoundAt(s1, s2, fuel) { FlatSoundAt(s1, s2, fuel); }
    }
    if forall s2, fuel: nat | Flat(s2) :: SoundAt(s1, s2, fuel) {
      var s2 := GroundStack(s1);
      GroundFlat(s1);
      assert SoundAt(s1, s2, StackSize(s1));
      GroundSoundAt(s1);
    }
  }

  lemma FlatSoundAt(s1: StackType, s2: StackType, fuel: nat)
    requires Flat(s1) && Flat(s2)
    ensures SoundAt(s1, s2, fuel)
  {
    hide Flat, Need, Solved, UnifyStacks, AgreeStacks, ApplyStack;
    if UnifyStacks(s1, s2, fuel).Ok? {
      MoreFuelStacks(s1, s2, fuel, fuel + Need(s1, s2));
      UnifySound(s1, s2, fuel + Need(s1, s2));
    }
  }

  lemma GroundSoundAt(s1: StackType)
    requires SoundAt(s1, GroundStack(s1), StackSize(s1))
    ensures Flat(s1)
  {
    hide Flat, UnifyStacks, AgreeStacks, ApplyStack, GroundStack, Grounding;
    GroundUnifies(s1, StackSize(s1));
    var s := UnifyStacks(s1, GroundStack(s1), StackSize(s1)).value;
    GroundApply(s, s1);
    SurfaceOnly(s, s1);
  }

  // ---- Without row variables inside quotations the recursion ends ----

  /** Quotations nested at most `deep` levels, each stack inside at most `wide` long and without a row variable. */
  predicate Fits(t: Type, wide: nat, deep: nat)
    decreases t
  {
    t.Quotation? || t.Closure? ==>
      deep > 0 && FitsInside(t.effect.inputs, wide, deep - 1) && FitsInside(t.effect.outputs, wide, deep - 1)
  }

  predicate FitsInside(st: StackType, wide: nat, deep: nat)
    decreases st
  {
    match st
    case Empty => true
    case RowVar(_) => false
    case Cons(rest, top) => Depth(st) <= wide && FitsInside(rest, wide, deep) && Fits(top, wide, deep)
  }

  predicate FitsStack(st: StackType, wide: nat, deep: nat) {
    match st
    case Cons(rest, top) => FitsStack(rest, wide, deep) && Fits(top, wide, deep)
    case _ => true
  }

  ghost predicate BindsFit(s: Subst, wide: nat, deep: nat) {
    && (forall x :: x in s.types ==> Fits(s.types[x], wide, deep))
    && (forall r :: r in s.rows ==> FitsStack(s.rows[r], wide, deep))
  }

  lemma {:induction false} InsideFits(st: StackType, wide: nat, deep: nat)
    requires FitsInside(st, wide, deep)
    ensures FitsStack(st, wide, deep) && Depth(st) <= wide && RowVars(st) == {}
  {
    hide Fits;
    if st.Cons? { InsideFits(st.rest, wide, deep); }
  }

  lemma {:induction false} FitsDeeper(t: Type, wide: nat, deep: nat)
    requires Fits(t, wide, deep)
    ensures Fits(t, wide, deep + 1)
    decreases t
  {
    hide FitsInside;
    if t.Quotation? || t.Closure? {
      InsideDeeper(t.effect.inputs, wide, deep - 1);
      InsideDeeper(t.effect.outputs, wide, deep - 1);
    }
  }

  lemma {:induction false} InsideDeeper(st: StackType, wide: nat, deep: nat)
    requires FitsInside(st, wide, deep)
    ensures FitsInside(st, wide, deep + 1)
    decreases st
  {
    hide Fits;
    if st.Cons? {
      InsideDeeper(st.rest, wide, deep);
      FitsDeeper(st.top, wide, deep);
    }
  }

  lemma {:induction false} ApplyFits(s: Subst, st: StackType, wide: nat, deep: nat)
    requires BindsFit(s, wide, deep) && FitsStack(st, wide, deep)
    ensures FitsStack(ApplyStack(s, st), wide, deep)
    ensures s.rows == map[] ==> Depth(ApplyStack(s, st)) == Depth(st) && RowVars(ApplyStack(s, st)) == RowVars(st)
  {
    hide Fits;
    if st.Cons? { ApplyFits(s, st.rest, wide, deep); }
  }

  lemma ComposeFits(a: Subst, b: Subst, wide: nat, deep: nat)
    requires BindsFit(a, wide, deep) && BindsFit(b, wide, deep)
    ensures BindsFit(Compose(a, b), wide, deep)
    ensures a.rows == map[] && b.rows == map[] ==> Compose(a, b).rows == map[]
  {
    hide ApplyStack, Fits;
    var c := Compose(a, b);
    forall r | r in c.rows ensures FitsStack(c.rows[r], wide, deep) {
      if r in b.rows { ApplyFits(a, b.rows[r], wide, deep); } else { ApplyFits(b, a.rows[r], wide, deep); }
    }
  }

  /** The recursion bound for types that fit. */
  function Levels(wide: nat, deep: nat): nat {
    if deep == 0 then 0 else 1 + wide + Levels(wide, deep - 1)
  }

  /** It ended, and bound only what fits. */
  ghost predicate Ended(r: Result<Subst, Error>, wide: nat, deep: nat) {
    r != Err(OutOfFuel) && (r.Ok? ==> BindsFit(r.value, wide, deep))
  }

  ghost predicate RowsKept(r: Result<Subst, Error>) {
    r.Ok? ==> r.value.rows == map[]
  }

  lemma {:induction false} TypesEnd(t1: Type, t2: Type, wide: nat, deep: nat, fuel: nat)
    requires Fits(t1, wide, deep) && Fits(t2, wide, deep) && Levels(wide, deep) <= fuel
    ensures Ended(UnifyTypes(t1, t2, fuel), wide, deep) && RowsKept(UnifyTypes(t1, t2, fuel))
    decreases fuel, 0
  {
    hide UnifyEffects, FitsInside, OccursInType;
    if (t1.Quotation? || t1.Closure?) && (t2.Quotation? || t2.Closure?) {
      EffectsEnd(t1.effect, t2.effect, wide, deep - 1, fuel - 1);
      EffectsEnd(t2.effect, t1.effect, wide, deep - 1, fuel - 1);
    }
  }

  lemma {:induction false} EffectsEnd(e1: Effect, e2: Effect, wide: nat, deep: nat, fuel: nat)
    requires FitsInside(e1.inputs, wide, deep) && FitsInside(e1.outputs, wide, deep)
    requires FitsInside(e2.inputs, wide, deep) && FitsInside(e2.outputs, wide, deep)
    requires wide + Levels(wide, deep) <= fuel
    ensures Ended(UnifyEffects(e1, e2, fuel), wide, deep + 1) && RowsKept(UnifyEffects(e1, e2, fuel))
    decreases fuel, 2
  {
    hide UnifyStacks, Compose, ApplyStack, FitsInside, FitsStack, BindsFit, RowVars;
    InsideFits(e1.inputs, wide, deep);
    InsideFits(e2.inputs, wide, deep);
    InsideFits(e1.outputs, wide, deep);
    InsideFits(e2.outputs, wide, deep);
    StacksEnd(e1.inputs, e2.inputs, wide, deep, fuel);
    var ins := UnifyStacks(e1.inputs, e2.inputs, fuel);
    if ins.Ok? {
      var o1, o2 := ApplyStack(ins.value, e1.outputs), ApplyStack(ins.value, e2.outputs);
      ApplyFits(ins.value, e1.outputs, wide, deep);
      ApplyFits(ins.value, e2.outputs, wide, deep);
      StacksEnd(o1, o2, wide, deep, fuel);
      var outs := UnifyStacks(o1, o2, fuel);
      if outs.Ok? {
        ComposeFits(ins.value, outs.value, wide, deep);
        BindsDeeper(Compose(ins.value, outs.value), wide, deep);
      }
    }
  }

  lemma BindsDeeper(s: Subst, wide: nat, deep: nat)
    requires BindsFit(s, wide, deep) && s.rows == map[]
    ensures BindsFit(s, wide, deep + 1)
  {
    hide Fits;
    forall x | x in s.types ensures Fits(s.types[x], wide, deep + 1) { FitsDeeper(s.types[x], wide, deep); }
  }

  lemma {:induction false} StacksEnd(s1: StackType, s2: StackType, wide: nat, deep: nat, fuel: nat)
    requires FitsStack(s1, wide, deep) && FitsStack(s2, wide, deep) && Depth(s1) + Levels(wide, deep) <= fuel
    ensures Ended(UnifyStacks(s1, s2, fuel), wide, deep)
    ensures RowVars(s1) == {} && RowVars(s2) == {} ==> RowsKept(UnifyStacks(s1, s2, fuel))
    decreases fuel, 1
  {
    hide UnifyTypes, Compose, ApplyStack, Fits, BindsFit, BindRow;
    match (s1, s2)
    case (Empty, Empty) => NothingFits(wide, deep);
    case (RowVar(n), st) => BindRowFits(n, st, wide, deep);
    case (st, RowVar(n)) => BindRowFits(n, st, wide, deep);
    case (Cons(rest1, top1), Cons(rest2, top2)) =>
      TypesEnd(top1, top2, wide, deep, fuel - 1);
      var top := UnifyTypes(top1, top2, fuel - 1);
      if top.Ok? {
        ApplyFits(top.value, rest1, wide, deep);
        ApplyFits(top.value, rest2, wide, deep);
        var r1, r2 := ApplyStack(top.value, rest1), ApplyStack(top.value, rest2);
        StacksEnd(r1, r2, wide, deep, fuel - 1);
        var rest := UnifyStacks(r1, r2, fuel - 1);
        if rest.Ok? { ComposeFits(top.value, rest.value, wide, deep); }
      }
    case _ =>
  }

  lemma NothingFits(wide: nat, deep: nat)
    ensures BindsFit(NO_SUBST, wide, deep)
  {
  }

  lemma BindRowFits(n: string, st: StackType, wide: nat, deep: nat)
    requires FitsStack(st, wide, deep)
    ensures Ended(BindRow(n, st), wide, deep)
  {
  }

  /** No row variable inside a quotation or closure, at any depth; type variables may be anywhere. */
  predicate InnerRowFree(t: Type)
    decreases t
  {
    t.Quotation? || t.Closure? ==> RowFree(t.effect.inputs) && RowFree(t.effect.outputs)
  }

  predicate RowFree(st: StackType)
    decreases st
  {
    match st
    case Empty => true
    case RowVar(_) => false
    case Cons(rest, top) => RowFree(rest) && InnerRowFree(top)
  }

  predicate InnerRowFreeStack(st: StackType) {
    match st
    case Cons(rest, top) => InnerRowFreeStack(rest) && InnerRowFree(top)
    case _ => true
  }

  lemma {:induction false} SizeFits(t: Type, wide: nat, deep: nat)
    requires InnerRowFree(t) && TypeSize(t) <= wide && TypeSize(t) <= deep
    ensures Fits(t, wide, deep)
    decreases t
  {
    hide RowFree, FitsInside, StackSize;
    if t.Quotation? || t.Closure? {
      SizeFitsInside(t.effect.inputs, wide, deep - 1);
      SizeFitsInside(t.effect.outputs, wide, deep - 1);
    }
  }

  lemma {:induction false} SizeFitsInside(st: StackType, wide: nat, deep: nat)
    requires RowFree(st) && StackSize(st) <= wide && StackSize(st) <= deep
    ensures FitsInside(st, wide, deep) && Depth(st) <= StackSize(st)
    decreases st
  {
    hide InnerRowFree, Fits;
    if st.Cons? {
      SizeFitsInside(st.rest, wide, deep);
      SizeFits(st.top, wide, deep);
    }
  }

  lemma {:induction false} NestFits(st: StackType, size: nat)
    requires InnerRowFreeStack(st) && Nest(st) <= size
    ensures FitsStack(st, size, size)
  {
    hide InnerRowFree, Fits;
    if st.Cons? {
      NestFits(st.rest, size);
      SizeFits(st.top, size, size);
    }
  }

  lemma {:induction false} LevelsAre(wide: nat, deep: nat)
    ensures Levels(wide, deep) == deep * (wide + 1)
    decreases deep
  {
    if deep > 0 { LevelsAre(wide, deep - 1); }
  }

  /** The recursion ends, within a bound that depends on the two stacks alone. */
  lemma UnifyEnds(s1: StackType, s2: StackType, fuel: nat)
    requires InnerRowFreeStack(s1) && InnerRowFreeStack(s2)
    requires var size := Max(Nest(s1), Nest(s2)); Depth(s1) + size * (size + 1) <= fuel
    ensures UnifyStacks(s1, s2, fuel) != Err(OutOfFuel)
  {
    hide InnerRowFreeStack, UnifyStacks, FitsStack, RowVars, Levels, BindsFit;
    var size := Max(Nest(s1), Nest(s2));
    NestFits(s1, size);
    NestFits(s2, size);
    LevelsAre(size, size);
    StacksEnd(s1, s2, size, size, fuel);
  }

  // ---- With them it need not end ----

  function Three(tail: StackType, third: Type, second: Type, first: Type): StackType {
    Cons(Cons(Cons(tail, third), second), first)
  }

  /** Unified with Puller, a Trigger binds the row variables l to `left` and r to `right`, in which
      they occur again: the two parts of its effect are unified without knowing of each other,
      and their bindings are then composed to a cyclic substitution. */
  function Trigger(left: StackType, right: StackType): Type {
    Quotation(Effect(Cons(Empty, Quotation(Effect(RowVar("l"), RowVar("r")))),
                     Cons(Empty, Quotation(Effect(left, right)))))
  }

  function Puller(): Type {
    var helper := Quotation(Effect(RowVar("l'"), RowVar("r'")));
    Quotation(Effect(Cons(Empty, helper), Cons(Empty, helper)))
  }

  function LeftEven(): StackType {
    Three(RowVar("l"), Var("d"), Var("c"), Var("b"))
  }

  function RightEven(): StackType {
    Three(RowVar("r"), Var("b"), Var("a"), Puller())
  }

  function LeftOdd(): StackType {
    Three(RowVar("l"), Var("b"), Var("a"), Var("c"))
  }

  function RightOdd(): StackType {
    Three(RowVar("r"), Var("d"), Var("c"), Puller())
  }

  function EvenTrigger(): Type {
    Trigger(LeftEven(), RightEven())
  }

  function OddTrigger(): Type {
    Trigger(LeftOdd(), RightOdd())
  }

  /** The two stacks of an even round; in an odd one the variables c and d play the parts of a and b. */
  function EvenStack(): StackType {
    Three(RowVar("l"), Var("b"), Var("a"), EvenTrigger())
  }

  function OddStack(): StackType {
    Three(RowVar("l"), Var("d"), Var("c"), OddTrigger())
  }

  function Partner(): StackType {
    Three(RowVar("r"), OddTrigger(), EvenTrigger(), Puller())
  }

  function RowBinding(n: string, st: StackType): Subst {
    Subst(map[], map[n := st])
  }

  /** l to l' and r to r'. */
  function ToHelpers(): Subst {
    Subst(map[], map["l" := RowVar("l'"), "r" := RowVar("r'")])
  }

  function FromHelpers(left: StackType, right: StackType): Subst {
    Subst(map[], map["l'" := left, "r'" := right])
  }

  function Pulled(left: StackType, right: StackType): Subst {
    Subst(map[], map["l" := left, "r" := right,
                     "l'" := ApplyStack(ToHelpers(), left), "r'" := ApplyStack(ToHelpers(), right)])
  }

  /** Nonempty, with the given row variable at the end. */
  ghost predicate Ends(st: StackType, tail: string) {
    st.Cons? && RowVars(st) == {tail}
  }

  lemma HelpersCompose()
    ensures Compose(RowBinding("l", RowVar("l'")), RowBinding("r", RowVar("r'"))) == ToHelpers()
  {
    var a, b := RowBinding("l", RowVar("l'")), RowBinding("r", RowVar("r'"));
    assert ApplyStack(b, RowVar("l'")) == RowVar("l'") && ApplyStack(a, RowVar("r'")) == RowVar("r'");
    hide ApplyStack;
    assert Compose(a, b).rows == ToHelpers().rows;
    assert Compose(a, b).types == map[];
  }

  lemma SidesCompose(left: StackType, right: StackType)
    requires Ends(left, "l") && Ends(right, "r")
    ensures Compose(RowBinding("l'", left), RowBinding("r'", right)) == FromHelpers(left, right)
  {
    hide ApplyStack, RowVars;
    var a, b := RowBinding("l'", left), RowBinding("r'", right);
    ApplyOutside(b, left);
    ApplyOutside(a, right);
    assert Compose(a, b).rows == FromHelpers(left, right).rows;
    assert Compose(a, b).types == map[];
  }

  lemma HalvesCompose(left: StackType, right: StackType)
    ensures Compose(ToHelpers(), FromHelpers(left, right)) == Pulled(left, right)
  {
    var a, b := ToHelpers(), FromHelpers(left, right);
    assert ApplyStack(b, RowVar("l'")) == left && ApplyStack(b, RowVar("r'")) == right;
    hide ApplyStack;
    assert Compose(a, b).rows == Pulled(left, right).rows;
    assert Compose(a, b).types == map[];
  }

  lemma BindsOther(n: string, st: StackType, fuel: nat)
    requires n !in RowVars(st) && st != Empty
    ensures UnifyStacks(RowVar(n), st, fuel) == Ok(RowBinding(n, st))
    ensures !st.RowVar? ==> UnifyStacks(st, RowVar(n), fuel) == Ok(RowBinding(n, st))
  {
    OccursIsRowVar(n, st);
  }

  lemma FirstHalf(fuel: nat)
    ensures UnifyEffects(Effect(RowVar("l"), RowVar("r")), Effect(RowVar("l'"), RowVar("r'")), fuel) == Ok(ToHelpers())
  {
    hide UnifyStacks, Compose;
    BindsOther("l", RowVar("l'"), fuel);
    BindsOther("r", RowVar("r'"), fuel);
    HelpersCompose();
  }

  lemma SecondHalf(left: StackType, right: StackType, fuel: nat)
    requires Ends(left, "l") && Ends(right, "r")
    ensures UnifyEffects(Effect(left, right), Effect(RowVar("l'"), RowVar("r'")), fuel)
         == Ok(FromHelpers(left, right))
  {
    assert ApplyStack(RowBinding("l'", left), RowVar("r'")) == RowVar("r'");
    hide UnifyStacks, Compose, ApplyStack;
    BindsOther("l'", left, fuel);
    BindsOther("r'", right, fuel);
    ApplyOutside(RowBinding("l'", left), right);
    SidesCompose(left, right);
  }

  /** A stack of one quotation. */
  lemma OneElement(e1: Effect, e2: Effect, s: Subst, fuel: nat)
    requires fuel >= 2 && UnifyEffects(e1, e2, fuel - 2) == Ok(s)
    ensures UnifyStacks(Cons(Empty, Quotation(e1)), Cons(Empty, Quotation(e2)), fuel) == Ok(s)
  {
    hide UnifyEffects;
    assert ApplyStack(s, Empty) == Empty;
    assert UnifyTypes(Quotation(e1), Quotation(e2), fuel - 1) == Ok(s);
    assert UnifyStacks(Empty, Empty, fuel - 1) == Ok(NO_SUBST);
    ComposesToSelf(s);
  }

  lemma ComposesToSelf(s: Subst)
    ensures Compose(s, NO_SUBST) == s
  {
    hide ApplyStack;
    forall r | r in s.rows ensures ApplyStack(NO_SUBST, s.rows[r]) == s.rows[r] { ApplyNothing(s.rows[r]); }
    assert Compose(s, NO_SUBST).rows == s.rows;
    assert Compose(s, NO_SUBST).types == s.types;
  }

  /** What a trigger and the puller are unified to. */
  lemma TriggerPulls(left: StackType, right: StackType, fuel: nat)
    requires Ends(left, "l") && Ends(right, "r") && fuel >= 3
    ensures UnifyTypes(Trigger(left, right), Puller(), fuel) == Ok(Pulled(left, right))
  {
    hide UnifyStacks, UnifyEffects, Compose, Ends;
    var (e1, e2, h) := (Effect(RowVar("l"), RowVar("r")), Effect(left, right), Effect(RowVar("l'"), RowVar("r'")));
    FirstHalf(fuel - 3);
    SecondHalf(left, right, fuel - 3);
    OneElement(e1, h, ToHelpers(), fuel - 1);
    OneElement(e2, h, FromHelpers(left, right), fuel - 1);
    HalvesCompose(left, right);
    TwoHalves(e1, e2, h, ToHelpers(), FromHelpers(left, right), fuel - 1);
    var (out1, out2) := (Effect(Cons(Empty, Quotation(e1)), Cons(Empty, Quotation(e2))),
                         Effect(Cons(Empty, Quotation(h)), Cons(Empty, Quotation(h))));
    assert UnifyTypes(Quotation(out1), Quotation(out2), fuel) == UnifyEffects(out1, out2, fuel - 1);
  }

  lemma TwoHalves(e1: Effect, e2: Effect, h: Effect, a: Subst, b: Subst, fuel: nat)
    requires UnifyStacks(Cons(Empty, Quotation(e1)), Cons(Empty, Quotation(h)), fuel) == Ok(a)
    requires UnifyStacks(Cons(Empty, Quotation(e2)), Cons(Empty, Quotation(h)), fuel) == Ok(b)
    ensures UnifyEffects(Effect(Cons(Empty, Quotation(e1)), Cons(Empty, Quotation(e2))),
                         Effect(Cons(Empty, Quotation(h)), Cons(Empty, Quotation(h))), fuel) == Ok(Compose(a, b))
  {
    hide UnifyStacks, Compose;
    assert ApplyStack(a, Cons(Empty, Quotation(e2))) == Cons(Empty, Quotation(e2));
    assert ApplyStack(a, Cons(Empty, Quotation(h))) == Cons(Empty, Quotation(h));
  }

  /** The tops are unified, and what is left does not end. */
  lemma TopThenRest(s1: StackType, s2: StackType, a: Subst, fuel: nat)
    requires s1.Cons? && s2.Cons? && UnifyTypes(s1.top, s2.top, fuel) == Ok(a)
    requires UnifyStacks(ApplyStack(a, s1.rest), ApplyStack(a, s2.rest), fuel) == Err(OutOfFuel)
    ensures UnifyStacks(s1, s2, fuel + 1) == Err(OutOfFuel)
  {
    hide UnifyTypes, ApplyStack, Compose;
  }

  /** A variable is bound to a trigger. */
  lemma TriggerBound(n: string, left: StackType, right: StackType, fuel: nat)
    ensures UnifyTypes(Var(n), Trigger(left, right), fuel) == Ok(Subst(map[n := Trigger(left, right)], map[]))
  {
    var t := Trigger(left, right);
    assert !OccursInStack(n, t.effect.inputs) && !OccursInStack(n, t.effect.outputs);
    assert !OccursInType(n, t);
    BindTypeIs(n, t);
    hide BindType, OccursInType;
    assert UnifyTypes(Var(n), t, fuel) == BindType(n, t);
  }

  lemma ThreeApply(s: Subst, tail: string, third: Type, second: Type, first: Type)
    requires s.rows == map[]
    ensures ApplyStack(s, Three(RowVar(tail), third, second, first))
         == Three(RowVar(tail), ApplyType(s, third), ApplyType(s, second), ApplyType(s, first))
  {
    assert ApplyStack(s, RowVar(tail)) == RowVar(tail);
    assert ApplyStack(s, Cons(RowVar(tail), third)) == Cons(RowVar(tail), ApplyType(s, third));
  }

  lemma PulledOnce(left: StackType, right: StackType, third: string, second: string)
    ensures ApplyStack(Pulled(left, right), Cons(Cons(RowVar("l"), Var(third)), Var(second)))
         == Cons(Cons(left, Var(third)), Var(second))
    ensures ApplyStack(Pulled(left, right), Cons(Cons(RowVar("r"), OddTrigger()), EvenTrigger()))
         == Cons(Cons(right, OddTrigger()), EvenTrigger())
  {
    hide EvenStack;
    assert ApplyStack(Pulled(left, right), RowVar("l")) == left;
    assert ApplyStack(Pulled(left, right), RowVar("r")) == right;
  }

  lemma BoundOnce(left: StackType, right: StackType, a: Subst, third: string, second: string)
    requires third != second && a == Subst(map[second := EvenTrigger()], map[])
    ensures ApplyStack(a, Cons(left, Var(third))) == Cons(ApplyStack(a, left), Var(third))
    ensures ApplyStack(a, Cons(right, OddTrigger())) == Cons(ApplyStack(a, right), OddTrigger())
  {
  }

  /** One round: the trigger pulls `left` and `right` to the ends of the stacks, then two variables
      are bound to the triggers. */
  lemma Round(left: StackType, right: StackType, third: string, second: string, fuel: nat)
    requires Ends(left, "l") && Ends(right, "r") && fuel >= 1 && third != second
    requires var a := Subst(map[second := EvenTrigger()], map[]);
             var b := Subst(map[third := OddTrigger()], map[]);
             UnifyStacks(ApplyStack(b, ApplyStack(a, left)), ApplyStack(b, ApplyStack(a, right)), fuel)
             == Err(OutOfFuel)
    ensures UnifyStacks(Three(RowVar("l"), Var(third), Var(second), Trigger(left, right)), Partner(), fuel + 3)
         == Err(OutOfFuel)
  {
    hide *;
    var (r1, r2) := (Cons(Cons(RowVar("l"), Var(third)), Var(second)),
                     Cons(Cons(RowVar("r"), OddTrigger()), EvenTrigger()));
    TwoBound(left, right, third, second, fuel);
    TriggerPulls(left, right, fuel + 2);
    PulledOnce(left, right, third, second);
    TopThenRest(Cons(r1, Trigger(left, right)), Cons(r2, Puller()), Pulled(left, right), fuel + 2);
    StacksAre(Var(third), Var(second), Trigger(left, right));
  }

  lemma StacksAre(third: Type, second: Type, first: Type)
    ensures Three(RowVar("l"), third, second, first) == Cons(Cons(Cons(RowVar("l"), third), second), first)
    ensures Partner() == Cons(Cons(Cons(RowVar("r"), OddTrigger()), EvenTrigger()), Puller())
  {
    hide EvenTrigger, OddTrigger, Puller;
  }

  lemma TwoBound(left: StackType, right: StackType, third: string, second: string, fuel: nat)
    requires third != second
    requires var a := Subst(map[second := EvenTrigger()], map[]);
             var b := Subst(map[third := OddTrigger()], map[]);
             UnifyStacks(ApplyStack(b, ApplyStack(a, left)), ApplyStack(b, ApplyStack(a, right)), fuel)
             == Err(OutOfFuel)
    ensures UnifyStacks(Cons(Cons(left, Var(third)), Var(second)), Cons(Cons(right, OddTrigger()), EvenTrigger()),
                        fuel + 2) == Err(OutOfFuel)
  {
    var even, odd := EvenTrigger(), OddTrigger();
    var a := Subst(map[second := even], map[]);
    var b := Subst(map[third := odd], map[]);
    assert UnifyTypes(Var(second), even, fuel + 1) == Ok(a) by {
      TriggerBound(second, LeftEven(), RightEven(), fuel + 1);
    }
    assert UnifyTypes(Var(third), odd, fuel) == Ok(b) by { TriggerBound(third, LeftOdd(), RightOdd(), fuel); }
    BoundOnce(left, right, a, third, second);
    hide UnifyStacks, UnifyTypes, EvenTrigger, OddTrigger, ApplyStack;
    TopThenRest(Cons(ApplyStack(a, left), Var(third)), Cons(ApplyStack(a, right), odd), b, fuel);
    TopThenRest(Cons(Cons(left, Var(third)), Var(second)), Cons(Cons(right, odd), even), a, fuel + 1);
  }

  lemma EvenRound(fuel: nat)
    requires fuel >= 1 && UnifyStacks(OddStack(), Partner(), fuel) == Err(OutOfFuel)
    ensures UnifyStacks(EvenStack(), Partner(), fuel + 3) == Err(OutOfFuel)
  {
    var a := Subst(map["a" := EvenTrigger()], map[]);
    var b := Subst(map["b" := OddTrigger()], map[]);
    hide UnifyStacks, EvenTrigger, OddTrigger;
    assert Ends(LeftEven(), "l") && Ends(RightEven(), "r");
    var even, odd := EvenTrigger(), OddTrigger();
    hide ApplyStack;
    ThreeApply(a, "l", Var("d"), Var("c"), Var("b"));
    ThreeApply(b, "l", Var("d"), Var("c"), Var("b"));
    ThreeApply(a, "r", Var("b"), Var("a"), Puller());
    ThreeApply(b, "r", Var("b"), even, Puller());
    EvenIs();
    assert ApplyStack(b, ApplyStack(a, LeftEven())) == OddStack();
    assert ApplyStack(b, ApplyStack(a, RightEven())) == Partner();
    EvenIs();
    Round(LeftEven(), RightEven(), "b", "a", fuel);
  }

  lemma EvenIs()
    ensures EvenStack() == Three(RowVar("l"), Var("b"), Var("a"), Trigger(LeftEven(), RightEven()))
    ensures OddStack() == Three(RowVar("l"), Var("d"), Var("c"), Trigger(LeftOdd(), RightOdd()))
  {
  }

  lemma OddRound(fuel: nat)
    requires fuel >= 1 && UnifyStacks(EvenStack(), Partner(), fuel) == Err(OutOfFuel)
    ensures UnifyStacks(OddStack(), Partner(), fuel + 3) == Err(OutOfFuel)
  {
    var a := Subst(map["c" := EvenTrigger()], map[]);
    var b := Subst(map["d" := OddTrigger()], map[]);
    hide UnifyStacks, EvenTrigger, OddTrigger;
    assert Ends(LeftOdd(), "l") && Ends(RightOdd(), "r");
    var even, odd := EvenTrigger(), OddTrigger();
    hide ApplyStack;
    ThreeApply(a, "l", Var("b"), Var("a"), Var("c"));
    ThreeApply(b, "l", Var("b"), Var("a"), even);
    ThreeApply(a, "r", Var("d"), Var("c"), Puller());
    ThreeApply(b, "r", Var("d"), even, Puller());
    EvenIs();
    assert ApplyStack(b, ApplyStack(a, LeftOdd())) == EvenStack();
    assert ApplyStack(b, ApplyStack(a, RightOdd())) == Partner();
    EvenIs();
    Round(LeftOdd(), RightOdd(), "d", "c", fuel);
  }

  lemma {:induction false} RoundsGoOn(rounds: nat)
    ensures UnifyStacks(EvenStack(), Partner(), 1 + 3 * rounds) == Err(OutOfFuel)
    ensures UnifyStacks(OddStack(), Partner(), 1 + 3 * rounds) == Err(OutOfFuel)
  {
    if rounds == 0 {
      FirstTop();
    } else {
      hide UnifyStacks, EvenStack, OddStack, Partner;
      RoundsGoOn(rounds - 1);
      EvenRound(3 * rounds - 2);
      OddRound(3 * rounds - 2);
    }
  }

  lemma FirstTop()
    ensures UnifyStacks(EvenStack(), Partner(), 1) == Err(OutOfFuel)
    ensures UnifyStacks(OddStack(), Partner(), 1) == Err(OutOfFuel)
  {
    assert UnifyTypes(EvenTrigger(), Puller(), 0) == Err(OutOfFuel);
    assert UnifyTypes(OddTrigger(), Puller(), 0) == Err(OutOfFuel);
  }

  /** No recursion depth is enough for these two stacks. */
  lemma UnifyNeedNotEnd(fuel: nat)
    ensures UnifyStacks(EvenStack(), Partner(), fuel) == Err(OutOfFuel)
  {
    hide UnifyStacks, EvenStack, Partner;
    RoundsGoOn(fuel);
    if UnifyStacks(EvenStack(), Partner(), fuel) != Err(OutOfFuel) {
      MoreFuelStacks(EvenStack(), Partner(), fuel, 1 + 3 * fuel);
    }
  }
}
