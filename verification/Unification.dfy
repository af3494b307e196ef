/** Unification of types and of stack types that end in a row variable
    (crates/compiler/src/unification.rs). */
module Unification {
  import opened Types
  import opened Wrappers

  datatype Subst = Subst(types: map<string, Type>, rows: map<string, StackType>)

  const NO_SUBST: Subst := Subst(map[], map[])

  /** The last one has no counterpart in the source: it bounds the recursion depth of the model. */
  datatype Error = Mismatch | OccursCheck | OutOfFuel

  function ApplyType(s: Subst, t: Type): Type {
    match t
    case Var(name) => if name in s.types then s.types[name] else t
    case _ => t
  }

  function ApplyStack(s: Subst, st: StackType): StackType {
    match st
    case Empty => Empty
    case Cons(rest, top) => Cons(ApplyStack(s, rest), ApplyType(s, top))
    case RowVar(name) => if name in s.rows then s.rows[name] else st
  }

  /** `self.compose(other)`: other's entries win, with self applied to their values. */
  function Compose(self: Subst, other: Subst): Subst {
    Subst(
      map x | x in self.types.Keys + other.types.Keys ::
        if x in other.types then ApplyType(self, other.types[x]) else ApplyType(other, self.types[x]),
      map r | r in self.rows.Keys + other.rows.Keys ::
        if r in other.rows then ApplyStack(self, other.rows[r]) else ApplyStack(other, self.rows[r]))
  }

  /** The loops that fill the two maps. */
  method ComposeLoops(self: Subst, other: Subst) returns (s: Subst)
    ensures s == Compose(self, other)
  {
    hide ApplyType, ApplyStack;
    var types := ComposeTypes(self, other);
    var rows := ComposeRows(self, other);
    s := Subst(types, rows);
  }

  method ComposeTypes(self: Subst, other: Subst) returns (types: map<string, Type>)
    ensures types == Compose(self, other).types
  {
    hide ApplyType, ApplyStack;
    types := map[];
    var todo := self.types.Keys;
    while todo != {}
      invariant todo <= self.types.Keys && types.Keys == self.types.Keys - todo
      invariant forall x :: x in types ==> types[x] == ApplyType(other, self.types[x])
      decreases todo
    {
      var k :| k in todo;
      todo := todo - {k};
      types := types[k := ApplyType(other, self.types[k])];
    }
    todo := other.types.Keys;
    while todo != {}
      invariant todo <= other.types.Keys && types.Keys == self.types.Keys + (other.types.Keys - todo)
      invariant forall x :: x in types && x in other.types && x !in todo ==> types[x] == ApplyType(self, other.types[x])
      invariant forall x :: x in types && (x !in other.types || x in todo) ==>
          types[x] == ApplyType(other, self.types[x])
      decreases todo
    {
      var k :| k in todo;
      todo := todo - {k};
      types := types[k := ApplyType(self, other.types[k])];
    }
  }

  method ComposeRows(self: Subst, other: Subst) returns (rows: map<string, StackType>)
    ensures rows == Compose(self, other).rows
  {
    hide ApplyType, ApplyStack;
    rows := map[];
    var todo := self.rows.Keys;
    while todo != {}
      invariant todo <= self.rows.Keys && rows.Keys == self.rows.Keys - todo
      invariant forall x :: x in rows ==> rows[x] == ApplyStack(other, self.rows[x])
      decreases todo
    {
      var k :| k in todo;
      todo := todo - {k};
      rows := rows[k := ApplyStack(other, self.rows[k])];
    }
    todo := other.rows.Keys;
    while todo != {}
      invariant todo <= other.rows.Keys && rows.Keys == self.rows.Keys + (other.rows.Keys - todo)
      invariant forall x :: x in rows && x in other.rows && x !in todo ==> rows[x] == ApplyStack(self, other.rows[x])
      invariant forall x :: x in rows && (x !in other.rows || x in todo) ==> rows[x] == ApplyStack(other, self.rows[x])
      decreases todo
    {
      var k :| k in todo;
      todo := todo - {k};
      rows := rows[k := ApplyStack(self, other.rows[k])];
    }
  }

  predicate OccursInType(v: string, t: Type)
    decreases t
  {
    match t
    case Var(name) => name == v
    case Quotation(e) => OccursInStack(v, e.inputs) || OccursInStack(v, e.outputs)
    case Closure(e, captures) =>
      || OccursInStack(v, e.inputs) || OccursInStack(v, e.outputs)
      || (exists k :: 0 <= k < |captures| && OccursInType(v, captures[k]))
    case _ => false
  }

  /** Looks at the row variable only, not at the element types. */
  predicate OccursInStack(v: string, st: StackType) {
    match st
    case Empty => false
    case RowVar(name) => name == v
    case Cons(rest, _) => OccursInStack(v, rest)
  }

  function BindType(name: string, t: Type): Result<Subst, Error> {
    if t == Var(name) then Ok(NO_SUBST)
    else if OccursInType(name, t) then Err(OccursCheck)
    else Ok(Subst(map[name := t], map[]))
  }

  function BindRow(name: string, st: StackType): Result<Subst, Error> {
    if st == RowVar(name) then Ok(NO_SUBST)
    else if OccursInStack(name, st) then Err(OccursCheck)
    else Ok(Subst(map[], map[name := st]))
  }

  function UnifyTypes(t1: Type, t2: Type, fuel: nat): Result<Subst, Error>
    decreases fuel, 0
  {
    match (t1, t2)
    case (Int, Int) => Ok(NO_SUBST)
    case (Float, Float) => Ok(NO_SUBST)
    case (Bool, Bool) => Ok(NO_SUBST)
    case (String, String) => Ok(NO_SUBST)
    case (Symbol, Symbol) => Ok(NO_SUBST)
    case (Channel, Channel) => Ok(NO_SUBST)
    case (Socket, Socket) => Ok(NO_SUBST)
    case (Union(n1), Union(n2)) => if n1 == n2 then Ok(NO_SUBST) else Err(Mismatch)
    case (Variant, Variant) => Ok(NO_SUBST)
    case (Union(_), Variant) => Ok(NO_SUBST)
    case (Variant, Union(_)) => Ok(NO_SUBST)
    case (Var(n), t) => BindType(n, t)
    case (t, Var(n)) => BindType(n, t)
    case (Quotation(e1), Quotation(e2)) => if fuel == 0 then Err(OutOfFuel) else UnifyEffects(e1, e2, fuel - 1)
    case (Closure(e1, _), Closure(e2, _)) => if fuel == 0 then Err(OutOfFuel) else UnifyEffects(e1, e2, fuel - 1)
    case (Quotation(e1), Closure(e2, _)) => if fuel == 0 then Err(OutOfFuel) else UnifyEffects(e1, e2, fuel - 1)
    case (Closure(e2, _), Quotation(e1)) => if fuel == 0 then Err(OutOfFuel) else UnifyEffects(e1, e2, fuel - 1)
    case _ => Err(Mismatch)
  }

  function UnifyStacks(s1: StackType, s2: StackType, fuel: nat): Result<Subst, Error>
    decreases fuel, 0
  {
    match (s1, s2)
    case (Empty, Empty) => Ok(NO_SUBST)
    case (RowVar(n), st) => BindRow(n, st)
    case (st, RowVar(n)) => BindRow(n, st)
    case (Cons(rest1, top1), Cons(rest2, top2)) =>
      if fuel == 0 then Err(OutOfFuel)
      else
        var top := UnifyTypes(top1, top2, fuel - 1);
        if top.Err? then top
        else
          var rest := UnifyStacks(ApplyStack(top.value, rest1), ApplyStack(top.value, rest2), fuel - 1);
          if rest.Err? then rest else Ok(Compose(top.value, rest.value))
    case _ => Err(Mismatch)
  }

  function UnifyEffects(e1: Effect, e2: Effect, fuel: nat): Result<Subst, Error>
    decreases fuel, 1
  {
    var ins := UnifyStacks(e1.inputs, e2.inputs, fuel);
    if ins.Err? then ins
    else
      var outs := UnifyStacks(ApplyStack(ins.value, e1.outputs), ApplyStack(ins.value, e2.outputs), fuel);
      if outs.Err? then outs else Ok(Compose(ins.value, outs.value))
  }

  // ---- The fuel only bounds: a result that was not cut short never changes ----

  lemma {:induction false} MoreFuelTypes(t1: Type, t2: Type, fuel: nat, more: nat)
    requires fuel <= more && UnifyTypes(t1, t2, fuel) != Err(OutOfFuel)
    ensures UnifyTypes(t1, t2, more) == UnifyTypes(t1, t2, fuel)
    decreases fuel, 0
  {
    hide BindType, UnifyEffects;
    if fuel > 0 {
      match (t1, t2)
      case (Quotation(e1), Quotation(e2)) => MoreFuelEffects(e1, e2, fuel - 1, more - 1);
      case (Closure(e1, _), Closure(e2, _)) => MoreFuelEffects(e1, e2, fuel - 1, more - 1);
      case (Quotation(e1), Closure(e2, _)) => MoreFuelEffects(e1, e2, fuel - 1, more - 1);
      case (Closure(e2, _), Quotation(e1)) => MoreFuelEffects(e1, e2, fuel - 1, more - 1);
      case _ =>
    }
  }

  lemma {:induction false} MoreFuelStacks(s1: StackType, s2: StackType, fuel: nat, more: nat)
    requires fuel <= more && UnifyStacks(s1, s2, fuel) != Err(OutOfFuel)
    ensures UnifyStacks(s1, s2, more) == UnifyStacks(s1, s2, fuel)
    decreases fuel, 0
  {
    hide BindRow, UnifyTypes, Compose, ApplyStack;
    if fuel > 0 && s1.Cons? && s2.Cons? {
      MoreFuelTypes(s1.top, s2.top, fuel - 1, more - 1);
      var top := UnifyTypes(s1.top, s2.top, fuel - 1);
      if top.Ok? {
        MoreFuelStacks(ApplyStack(top.value, s1.rest), ApplyStack(top.value, s2.rest), fuel - 1, more - 1);
      }
    }
  }

  lemma {:induction false} MoreFuelEffects(e1: Effect, e2: Effect, fuel: nat, more: nat)
    requires fuel <= more && UnifyEffects(e1, e2, fuel) != Err(OutOfFuel)
    ensures UnifyEffects(e1, e2, more) == UnifyEffects(e1, e2, fuel)
    decreases fuel, 1
  {
    hide UnifyStacks, Compose, ApplyStack;
    MoreFuelStacks(e1.inputs, e2.inputs, fuel, more);
    var ins := UnifyStacks(e1.inputs, e2.inputs, fuel);
    if ins.Ok? {
      MoreFuelStacks(ApplyStack(ins.value, e1.outputs), ApplyStack(ins.value, e2.outputs), fuel, more);
    }
  }

  // ---- Variables that substitution can reach ----

  function TypeVars(t: Type): set<string> {
    if t.Var? then {t.name} else {}
  }

  /** Type variables at the element positions. */
  function StackTypeVars(st: StackType): set<string> {
    match st
    case Cons(rest, top) => StackTypeVars(rest) + TypeVars(top)
    case _ => {}
  }

  function RowVars(st: StackType): set<string> {
    match st
    case Empty => {}
    case RowVar(name) => {name}
    case Cons(rest, _) => RowVars(rest)
  }

  lemma {:induction false} ApplyOutside(s: Subst, st: StackType)
    requires StackTypeVars(st) !! s.types.Keys && RowVars(st) !! s.rows.Keys
    ensures ApplyStack(s, st) == st
  {
    if st.Cons? { ApplyOutside(s, st.rest); }
  }

  // ---- Composition ----

  /** What composition asks of one type variable of other: after self has been applied to its value,
      that is what self and then other make of the variable. */
  predicate ComposesType(self: Subst, other: Subst, x: string)
    requires x in other.types
  {
    ApplyType(self, other.types[x]) == ApplyType(other, ApplyType(self, Var(x)))
  }

  predicate ComposesRow(self: Subst, other: Subst, r: string)
    requires r in other.rows
  {
    ApplyStack(self, other.rows[r]) == ApplyStack(other, ApplyStack(self, RowVar(r)))
  }

  /** A finite check on the variables that other binds. */
  predicate Composable(self: Subst, other: Subst) {
    && (forall x :: x in other.types ==> ComposesType(self, other, x))
    && (forall r :: r in other.rows ==> ComposesRow(self, other, r))
  }

  lemma ComposeType(self: Subst, other: Subst, t: Type)
    requires Composable(self, other)
    ensures ApplyType(Compose(self, other), t) == ApplyType(other, ApplyType(self, t))
  {
    hide ApplyStack;
    if t.Var? && t.name in other.types { assert ComposesType(self, other, t.name); }
  }

  lemma {:induction false} ComposableComposes(self: Subst, other: Subst, st: StackType)
    requires Composable(self, other)
    ensures ApplyStack(Compose(self, other), st) == ApplyStack(other, ApplyStack(self, st))
  {
    hide ApplyType, Compose;
    match st
    case Empty =>
    case Cons(rest, top) =>
      ComposableComposes(self, other, rest);
      ComposeType(self, other, top);
    case RowVar(r) => ComposeRow(self, other, r);
  }

  lemma ComposeRow(self: Subst, other: Subst, r: string)
    ensures r !in other.rows ==>
              ApplyStack(Compose(self, other), RowVar(r)) == ApplyStack(other, ApplyStack(self, RowVar(r)))
    ensures r in other.rows ==>
              (ApplyStack(Compose(self, other), RowVar(r)) == ApplyStack(other, ApplyStack(self, RowVar(r)))
               <==> ComposesRow(self, other, r))
  {
  }

  ghost predicate ComposesOn(self: Subst, other: Subst, st: StackType) {
    ApplyStack(Compose(self, other), st) == ApplyStack(other, ApplyStack(self, st))
  }

  /** Exactly when `compose` is composition: self first, then other, on every stack type. */
  lemma ComposeIff(self: Subst, other: Subst)
    ensures (forall st :: ComposesOn(self, other, st)) <==> Composable(self, other)
  {
    hide ApplyStack, Compose, ApplyType;
    if Composable(self, other) {
      forall st ensures ComposesOn(self, other, st) { ComposableComposes(self, other, st); }
    }
    if forall st :: ComposesOn(self, other, st) {
      forall r | r in other.rows ensures ComposesRow(self, other, r) {
        assert ComposesOn(self, other, RowVar(r));
        ComposeRow(self, other, r);
      }
      forall x | x in other.types ensures ComposesType(self, other, x) {
        assert ComposesOn(self, other, Cons(Empty, Var(x)));
        TopComposes(self, other, x);
      }
    }
  }

  lemma TopComposes(self: Subst, other: Subst, x: string)
    requires x in other.types
    requires ApplyStack(Compose(self, other), Cons(Empty, Var(x)))
        == ApplyStack(other, ApplyStack(self, Cons(Empty, Var(x))))
    ensures ComposesType(self, other, x)
  {
  }

  /** No variable that self binds is bound or mentioned by other. */
  ghost predicate Separate(self: Subst, other: Subst) {
    && self.types.Keys !! other.types.Keys
    && self.rows.Keys !! other.rows.Keys
    && (forall x :: x in other.types ==> TypeVars(other.types[x]) !! self.types.Keys)
    && (forall r :: r in other.rows ==>
          StackTypeVars(other.rows[r]) !! self.types.Keys && RowVars(other.rows[r]) !! self.rows.Keys)
  }

  /** The condition that the calls in unification meet. */
  lemma ComposeStack(self: Subst, other: Subst, st: StackType)
    requires Separate(self, other)
    ensures ApplyStack(Compose(self, other), st) == ApplyStack(other, ApplyStack(self, st))
  {
    SeparateComposable(self, other);
    ComposableComposes(self, other, st);
  }

  lemma SeparateComposable(self: Subst, other: Subst)
    requires Separate(self, other)
    ensures Composable(self, other)
  {
    forall r | r in other.rows ensures ComposesRow(self, other, r) { ApplyOutside(self, other.rows[r]); }
  }

  /** A pair that fails the check: {T := Int} composed with {U := T}. */
  lemma ComposeCounterexample()
    ensures var self := Subst(map["T" := Int], map[]);
            var other := Subst(map["U" := Var("T")], map[]);
            && ApplyType(other, ApplyType(self, Var("U"))) == Var("T")
            && ApplyType(Compose(self, other), Var("U")) == Int
            && !Composable(self, other)
  {
    var other := Subst(map["U" := Var("T")], map[]);
    assert !ComposesType(Subst(map["T" := Int], map[]), other, "U");
  }

  // ---- Flat stacks: no variable inside a quotation or closure ----

  /** No variable anywhere; captures do not matter, nothing but the occurs check looks at them. */
  predicate VarFree(t: Type)
    decreases t
  {
    match t
    case Var(_) => false
    case Quotation(e) => VarFreeStack(e.inputs) && VarFreeStack(e.outputs)
    case Closure(e, _) => VarFreeStack(e.inputs) && VarFreeStack(e.outputs)
    case _ => true
  }

  predicate VarFreeStack(st: StackType) {
    match st
    case Empty => true
    case RowVar(_) => false
    case Cons(rest, top) => VarFreeStack(rest) && VarFree(top)
  }

  predicate FlatType(t: Type) {
    t.Quotation? || t.Closure? ==> VarFree(t)
  }

  predicate Flat(st: StackType) {
    match st
    case Cons(rest, top) => Flat(rest) && FlatType(top)
    case _ => true
  }

  /** Flat, mentions only the given variables, and never a variable that it binds itself. */
  ghost predicate Solved(s: Subst, tv: set<string>, rv: set<string>) {
    && s.types.Keys <= tv && s.rows.Keys <= rv
    && (forall x :: x in s.types ==> FlatType(s.types[x]) && TypeVars(s.types[x]) <= tv - s.types.Keys)
    && (forall r :: r in s.rows ==>
          && Flat(s.rows[r])
          && StackTypeVars(s.rows[r]) <= tv - s.types.Keys
          && RowVars(s.rows[r]) <= rv - s.rows.Keys)
  }

  /** Applying a solved substitution leaves none of its own variables. */
  lemma {:induction false} ApplySolved(s: Subst, tv: set<string>, rv: set<string>, st: StackType)
    requires Solved(s, tv, rv) && Flat(st)
    ensures Flat(ApplyStack(s, st))
    ensures StackTypeVars(ApplyStack(s, st)) <= (StackTypeVars(st) + tv) - s.types.Keys
    ensures RowVars(ApplyStack(s, st)) <= (RowVars(st) + rv) - s.rows.Keys
  {
    if st.Cons? { ApplySolved(s, tv, rv, st.rest); }
  }

  /** So applying it twice is applying it once. */
  lemma {:induction false} SolvedIdempotent(s: Subst, tv: set<string>, rv: set<string>, st: StackType)
    requires Solved(s, tv, rv)
    ensures ApplyStack(s, ApplyStack(s, st)) == ApplyStack(s, st)
  {
    match st
    case Empty =>
    case Cons(rest, top) => SolvedIdempotent(s, tv, rv, rest);
    case RowVar(r) =>
      if r in s.rows { ApplyOutside(s, s.rows[r]); }
  }

  /** Composing a substitution with one that was solved after applying it. */
  lemma ComposeSolved(a: Subst, b: Subst, tv: set<string>, rv: set<string>)
    requires Solved(a, tv, rv) && Solved(b, tv - a.types.Keys, rv - a.rows.Keys)
    ensures Separate(a, b) && Solved(Compose(a, b), tv, rv)
  {
    var c := Compose(a, b);
    assert Separate(a, b);
    forall r | r in c.rows
      ensures Flat(c.rows[r]) && StackTypeVars(c.rows[r]) <= tv - c.types.Keys && RowVars(c.rows[r]) <= rv - c.rows.Keys
    {
      if r in b.rows {
        ApplyOutside(a, b.rows[r]);
      } else {
        ApplySolved(b, tv - a.types.Keys, rv - a.rows.Keys, a.rows[r]);
      }
    }
  }

  // ---- Soundness ----

  /** Equal, up to the relaxations of the code: a union against a variant, a closure against a
      quotation, captures not compared. */
  predicate AgreeTypes(t: Type, u: Type)
    decreases t
  {
    match (t, u)
    case (Union(_), Variant) => true
    case (Variant, Union(_)) => true
    case (Quotation(e1), Quotation(e2)) => AgreeStacks(e1.inputs, e2.inputs) && AgreeStacks(e1.outputs, e2.outputs)
    case (Closure(e1, _), Closure(e2, _)) => AgreeStacks(e1.inputs, e2.inputs) && AgreeStacks(e1.outputs, e2.outputs)
    case (Quotation(e1), Closure(e2, _)) => AgreeStacks(e1.inputs, e2.inputs) && AgreeStacks(e1.outputs, e2.outputs)
    case (Closure(e1, _), Quotation(e2)) => AgreeStacks(e1.inputs, e2.inputs) && AgreeStacks(e1.outputs, e2.outputs)
    case _ => t == u
  }

  predicate AgreeStacks(s: StackType, t: StackType)
    decreases s
  {
    match (s, t)
    case (Cons(r1, t1), Cons(r2, t2)) => AgreeStacks(r1, r2) && AgreeTypes(t1, t2)
    case _ => s == t
  }

  lemma {:induction false} AgreeTypesRefl(t: Type)
    ensures AgreeTypes(t, t)
    decreases t
  {
    match t
    case Quotation(e) =>
      AgreeRefl(e.inputs);
      AgreeRefl(e.outputs);
    case Closure(e, _) =>
      AgreeRefl(e.inputs);
      AgreeRefl(e.outputs);
    case _ =>
  }

  lemma {:induction false} AgreeRefl(s: StackType)
    ensures AgreeStacks(s, s)
    decreases s
  {
    if s.Cons? {
      AgreeRefl(s.rest);
      AgreeTypesRefl(s.top);
    }
  }

  lemma {:induction false} AgreeSym(s: StackType, t: StackType)
    requires AgreeStacks(s, t)
    ensures AgreeStacks(t, s)
    decreases s
  {
    if s.Cons? {
      AgreeSym(s.rest, t.rest);
      AgreeTypesSym(s.top, t.top);
    }
  }

  lemma {:induction false} AgreeTypesSym(t: Type, u: Type)
    requires AgreeTypes(t, u)
    ensures AgreeTypes(u, t)
    decreases t
  {
    if (t.Quotation? || t.Closure?) && (u.Quotation? || u.Closure?) {
      AgreeSym(t.effect.inputs, u.effect.inputs);
      AgreeSym(t.effect.outputs, u.effect.outputs);
    }
  }

  lemma AgreeTypesApply(s: Subst, t: Type, u: Type)
    requires AgreeTypes(t, u)
    ensures AgreeTypes(ApplyType(s, t), ApplyType(s, u))
  {
    if t.Var? || u.Var? {
      AgreeTypesRefl(ApplyType(s, t));
    }
  }

  lemma {:induction false} AgreeApply(s: Subst, a: StackType, b: StackType)
    requires AgreeStacks(a, b)
    ensures AgreeStacks(ApplyStack(s, a), ApplyStack(s, b))
    decreases a
  {
    if a.Cons? {
      AgreeApply(s, a.rest, b.rest);
      AgreeTypesApply(s, a.top, b.top);
    } else {
      AgreeRefl(ApplyStack(s, a));
    }
  }

  // ---- Types without variables: unification is agreement ----

  /** What the occurs check can find in a type without variables: a name in the captures. */
  lemma VarFreeOccurs(v: string, t: Type)
    requires VarFree(t)
    ensures OccursInType(v, t) <==> t.Closure? && exists k :: 0 <= k < |t.captures| && OccursInType(v, t.captures[k])
  {
    if t.Quotation? || t.Closure? {
      VarFreeOccursStack(v, t.effect.inputs);
      VarFreeOccursStack(v, t.effect.outputs);
    }
  }

  lemma {:induction false} VarFreeOccursStack(v: string, st: StackType)
    requires VarFreeStack(st)
    ensures !OccursInStack(v, st)
  {
    if st.Cons? { VarFreeOccursStack(v, st.rest); }
  }

  lemma {:induction false} ApplyNothing(st: StackType)
    ensures ApplyStack(NO_SUBST, st) == st
  {
    if st.Cons? { ApplyNothing(st.rest); }
  }

  function Agreed(agree: bool): Result<Subst, Error> {
    if agree then Ok(NO_SUBST) else Err(Mismatch)
  }

  lemma ComposeNothing()
    ensures Compose(NO_SUBST, NO_SUBST) == NO_SUBST
  {
  }

  lemma {:induction false} VarFreeUnifyStacks(s1: StackType, s2: StackType, fuel: nat)
    requires VarFreeStack(s1) && VarFreeStack(s2) && StackSize(s1) <= fuel && StackSize(s2) <= fuel
    ensures UnifyStacks(s1, s2, fuel) == Agreed(AgreeStacks(s1, s2))
    decreases fuel, 0
  {
    hide UnifyTypes, Compose, AgreeTypes;
    if s1.Cons? && s2.Cons? {
      ComposeNothing();
      VarFreeUnifyTypes(s1.top, s2.top, fuel - 1);
      ApplyNothing(s1.rest);
      ApplyNothing(s2.rest);
      VarFreeUnifyStacks(s1.rest, s2.rest, fuel - 1);
    }
  }

  lemma {:induction false} VarFreeUnifyTypes(t1: Type, t2: Type, fuel: nat)
    requires VarFree(t1) && VarFree(t2) && TypeSize(t1) <= fuel && TypeSize(t2) <= fuel
    ensures UnifyTypes(t1, t2, fuel) == Agreed(AgreeTypes(t1, t2))
    decreases fuel, 0
  {
    hide UnifyEffects, AgreeStacks, VarFreeStack, StackSize;
    if (t1.Quotation? || t1.Closure?) && (t2.Quotation? || t2.Closure?) {
      VarFreeUnifyEffects(t1.effect, t2.effect, fuel - 1);
      VarFreeUnifyEffects(t2.effect, t1.effect, fuel - 1);
      AgreeEffectsSym(t1.effect, t2.effect);
    }
  }

  lemma AgreeEffectsSym(e1: Effect, e2: Effect)
    ensures AgreeStacks(e1.inputs, e2.inputs) == AgreeStacks(e2.inputs, e1.inputs)
    ensures AgreeStacks(e1.outputs, e2.outputs) == AgreeStacks(e2.outputs, e1.outputs)
  {
    hide AgreeStacks;
    if AgreeStacks(e1.inputs, e2.inputs) { AgreeSym(e1.inputs, e2.inputs); }
    if AgreeStacks(e2.inputs, e1.inputs) { AgreeSym(e2.inputs, e1.inputs); }
    if AgreeStacks(e1.outputs, e2.outputs) { AgreeSym(e1.outputs, e2.outputs); }
    if AgreeStacks(e2.outputs, e1.outputs) { AgreeSym(e2.outputs, e1.outputs); }
  }

  lemma {:induction false} VarFreeUnifyEffects(e1: Effect, e2: Effect, fuel: nat)
    requires VarFreeStack(e1.inputs) && VarFreeStack(e1.outputs) && VarFreeStack(e2.inputs) && VarFreeStack(e2.outputs)
    requires StackSize(e1.inputs) <= fuel && StackSize(e1.outputs) <= fuel
    requires StackSize(e2.inputs) <= fuel && StackSize(e2.outputs) <= fuel
    ensures UnifyEffects(e1, e2, fuel)
         == Agreed(AgreeStacks(e1.inputs, e2.inputs) && AgreeStacks(e1.outputs, e2.outputs))
    decreases fuel, 1
  {
    hide UnifyStacks, AgreeStacks, Compose, VarFreeStack, StackSize;
    ComposeNothing();
    ApplyNothing(e1.outputs);
    ApplyNothing(e2.outputs);
    VarFreeUnifyStacks(e1.inputs, e2.inputs, fuel);
    VarFreeUnifyStacks(e1.outputs, e2.outputs, fuel);
  }

  ghost function VarsOf(s1: StackType, s2: StackType): set<string> {
    StackTypeVars(s1) + StackTypeVars(s2)
  }

  ghost function RowsOf(s1: StackType, s2: StackType): set<string> {
    RowVars(s1) + RowVars(s2)
  }

  /** The recursion bound that is enough: the depth, and what is inside the elements. */
  function Need(s1: StackType, s2: StackType): nat {
    Depth(s1) + Max(Nest(s1), Nest(s2))
  }

  /** A substitution whose types are no larger than the given size. */
  ghost predicate BindsWithin(s: Subst, size: nat) {
    forall x :: x in s.types ==> TypeSize(s.types[x]) <= size
  }

  lemma {:induction false} NestApply(s: Subst, st: StackType, size: nat)
    requires s.rows == map[] && BindsWithin(s, size) && Nest(st) <= size
    ensures Nest(ApplyStack(s, st)) <= size
  {
    hide TypeSize;
    if st.Cons? { NestApply(s, st.rest, size); }
  }

  function Binding(n: string, t: Type): Subst {
    if t == Var(n) then NO_SUBST else Subst(map[n := t], map[])
  }

  lemma BindTypeIs(n: string, t: Type)
    ensures BindType(n, t) == if t != Var(n) && OccursInType(n, t) then Err(OccursCheck) else Ok(Binding(n, t))
  {
    hide OccursInType;
  }

  lemma UnifyFlatTypes(t1: Type, t2: Type, fuel: nat)
    requires FlatType(t1) && FlatType(t2) && TypeSize(t1) <= fuel && TypeSize(t2) <= fuel
    ensures UnifyTypes(t1, t2, fuel) != Err(OutOfFuel)
    ensures UnifyTypes(t1, t2, fuel).Ok? ==>
              var s := UnifyTypes(t1, t2, fuel).value;
              && Solved(s, TypeVars(t1) + TypeVars(t2), {})
              && AgreeTypes(ApplyType(s, t1), ApplyType(s, t2))
              && BindsWithin(s, Max(TypeSize(t1), TypeSize(t2)))
  {
    hide UnifyTypes, BindType, AgreeTypes, VarFree, TypeSize, Solved, BindsWithin;
    UnifyVars(t1, t2, fuel);
    if t1.Var? {
      BindTypeIs(t1.name, t2);
      BindAgrees(t1, t2);
    } else if t2.Var? {
      BindTypeIs(t2.name, t1);
      BindAgrees(t2, t1);
    } else {
      FlatIsVarFree(t1);
      FlatIsVarFree(t2);
      VarFreeUnifyTypes(t1, t2, fuel);
      NothingSolves(t1, t2);
    }
  }

  lemma UnifyVars(t1: Type, t2: Type, fuel: nat)
    ensures t1.Var? ==> UnifyTypes(t1, t2, fuel) == BindType(t1.name, t2)
    ensures t2.Var? && !t1.Var? ==> UnifyTypes(t1, t2, fuel) == BindType(t2.name, t1)
  {
    hide BindType;
  }

  lemma FlatIsVarFree(t: Type)
    requires FlatType(t) && !t.Var?
    ensures VarFree(t)
  {
    hide VarFreeStack;
  }

  lemma NothingSolves(t1: Type, t2: Type)
    requires !t1.Var? && !t2.Var?
    ensures Solved(NO_SUBST, TypeVars(t1) + TypeVars(t2), {}) && BindsWithin(NO_SUBST, Max(TypeSize(t1), TypeSize(t2)))
    ensures ApplyType(NO_SUBST, t1) == t1 && ApplyType(NO_SUBST, t2) == t2
  {
    hide TypeSize;
  }

  lemma BindAgrees(v: Type, t: Type)
    requires v.Var? && FlatType(t)
    ensures var s := Binding(v.name, t);
            && Solved(s, TypeVars(v) + TypeVars(t), {}) && Solved(s, TypeVars(t) + TypeVars(v), {})
            && AgreeTypes(ApplyType(s, v), ApplyType(s, t)) && AgreeTypes(ApplyType(s, t), ApplyType(s, v))
            && BindsWithin(s, Max(TypeSize(v), TypeSize(t))) && BindsWithin(s, Max(TypeSize(t), TypeSize(v)))
  {
    hide VarFree, AgreeTypes, StackSize;
    AgreeTypesRefl(t);
  }

  lemma {:induction false} OccursIsRowVar(n: string, st: StackType)
    ensures OccursInStack(n, st) <==> n in RowVars(st)
  {
    if st.Cons? { OccursIsRowVar(n, st.rest); }
  }

  lemma BindRowSound(n: string, st: StackType)
    requires Flat(st)
    ensures BindRow(n, st) != Err(OutOfFuel)
    ensures BindRow(n, st).Ok? ==>
              var s := BindRow(n, st).value;
              && Solved(s, StackTypeVars(st), {n} + RowVars(st))
              && ApplyStack(s, RowVar(n)) == ApplyStack(s, st)
  {
    OccursIsRowVar(n, st);
    if BindRow(n, st).Ok? && st != RowVar(n) {
      ApplyOutside(BindRow(n, st).value, st);
    }
  }

  lemma {:induction false} DepthApply(s: Subst, st: StackType)
    requires s.rows == map[]
    ensures Depth(ApplyStack(s, st)) == Depth(st)
  {
    if st.Cons? { DepthApply(s, st.rest); }
  }

  lemma SolvedWiden(s: Subst, tv: set<string>, rv: set<string>, tv': set<string>, rv': set<string>)
    requires Solved(s, tv, rv) && tv <= tv' && rv <= rv'
    ensures Solved(s, tv', rv')
  {
  }

  /** The substitution that flat stacks unify to: it is solved, and it makes them agree. */
  lemma {:induction false} UnifySound(s1: StackType, s2: StackType, fuel: nat)
    requires Flat(s1) && Flat(s2) && Need(s1, s2) <= fuel
    ensures UnifyStacks(s1, s2, fuel) != Err(OutOfFuel)
    ensures UnifyStacks(s1, s2, fuel).Ok? ==>
              var s := UnifyStacks(s1, s2, fuel).value;
              && Solved(s, VarsOf(s1, s2), RowsOf(s1, s2))
              && AgreeStacks(ApplyStack(s, s1), ApplyStack(s, s2))
    decreases fuel
  {
    hide Solved, BindRow, UnifyTypes, Compose, Separate, ApplyType, AgreeTypes, VarsOf, RowsOf, TypeSize, BindsWithin,
        FlatType;
    match (s1, s2)
    case (Empty, Empty) => SolvedNothing(VarsOf(s1, s2), RowsOf(s1, s2));
    case (RowVar(n), st) => BindRowAgrees(n, st, s1, s2);
    case (st, RowVar(n)) => BindRowAgrees(n, st, s1, s2);
    case (Cons(rest1, top1), Cons(rest2, top2)) =>
      UnifyFlatTypes(top1, top2, fuel - 1);
      var top := UnifyTypes(top1, top2, fuel - 1);
      if top.Ok? {
        var a := top.value;
        AfterTop(s1, s2, a);
        var r1, r2 := ApplyStack(a, rest1), ApplyStack(a, rest2);
        UnifySound(r1, r2, fuel - 1);
        if UnifyStacks(r1, r2, fuel - 1).Ok? {
          AfterRest(s1, s2, a, UnifyStacks(r1, r2, fuel - 1).value);
        }
      }
    case _ =>
  }

  /** What unifying the tops leaves of the rests. */
  lemma AfterTop(s1: StackType, s2: StackType, a: Subst)
    requires s1.Cons? && s2.Cons? && Flat(s1) && Flat(s2)
    requires Solved(a, TypeVars(s1.top) + TypeVars(s2.top), {})
    requires BindsWithin(a, Max(TypeSize(s1.top), TypeSize(s2.top)))
    ensures var r1, r2 := ApplyStack(a, s1.rest), ApplyStack(a, s2.rest);
            && Flat(r1) && Flat(r2) && Need(r1, r2) < Need(s1, s2)
            && Solved(a, VarsOf(s1, s2), RowsOf(s1, s2))
            && VarsOf(r1, r2) <= VarsOf(s1, s2) - a.types.Keys
            && RowsOf(r1, r2) <= RowsOf(s1, s2) - a.rows.Keys
  {
    hide Solved, ApplyType, ApplyStack, TypeSize, BindsWithin;
    var size := Max(Nest(s1), Nest(s2));
    BindsWiden(a, Max(TypeSize(s1.top), TypeSize(s2.top)), size);
    NoRows(a, TypeVars(s1.top) + TypeVars(s2.top));
    DepthApply(a, s1.rest);
    SolvedWiden(a, TypeVars(s1.top) + TypeVars(s2.top), {}, VarsOf(s1, s2), RowsOf(s1, s2));
    ApplySolved(a, VarsOf(s1, s2), RowsOf(s1, s2), s1.rest);
    ApplySolved(a, VarsOf(s1, s2), RowsOf(s1, s2), s2.rest);
    NestApply(a, s1.rest, size);
    NestApply(a, s2.rest, size);
  }

  lemma BindsWiden(s: Subst, size: nat, more: nat)
    requires BindsWithin(s, size) && size <= more
    ensures BindsWithin(s, more)
  {
    hide TypeSize;
  }

  /** Unifying the rests keeps the tops in agreement. */
  lemma AfterRest(s1: StackType, s2: StackType, a: Subst, b: Subst)
    requires s1.Cons? && s2.Cons? && Flat(s1) && Flat(s2)
    requires Solved(a, TypeVars(s1.top) + TypeVars(s2.top), {})
    requires BindsWithin(a, Max(TypeSize(s1.top), TypeSize(s2.top)))
    requires AgreeTypes(ApplyType(a, s1.top), ApplyType(a, s2.top))
    requires var r1, r2 := ApplyStack(a, s1.rest), ApplyStack(a, s2.rest);
             Solved(b, VarsOf(r1, r2), RowsOf(r1, r2)) && AgreeStacks(ApplyStack(b, r1), ApplyStack(b, r2))
    ensures Solved(Compose(a, b), VarsOf(s1, s2), RowsOf(s1, s2))
    ensures AgreeStacks(ApplyStack(Compose(a, b), s1), ApplyStack(Compose(a, b), s2))
  {
    hide Solved, Compose, Separate, VarsOf, RowsOf, AgreeTypes, TypeSize, BindsWithin, ApplyType, FlatType, Need;
    var r1, r2 := ApplyStack(a, s1.rest), ApplyStack(a, s2.rest);
    AfterTop(s1, s2, a);
    SolvedWiden(b, VarsOf(r1, r2), RowsOf(r1, r2), VarsOf(s1, s2) - a.types.Keys, RowsOf(s1, s2) - a.rows.Keys);
    ComposeSolved(a, b, VarsOf(s1, s2), RowsOf(s1, s2));
    ComposeStack(a, b, s1);
    ComposeStack(a, b, s2);
    AgreeTypesApply(b, ApplyType(a, s1.top), ApplyType(a, s2.top));
  }

  lemma SolvedNothing(tv: set<string>, rv: set<string>)
    ensures Solved(NO_SUBST, tv, rv)
  {
  }

  lemma NoRows(s: Subst, tv: set<string>)
    requires Solved(s, tv, {})
    ensures s.rows == map[]
  {
  }

  lemma BindRowAgrees(n: string, st: StackType, s1: StackType, s2: StackType)
    requires Flat(st)
    requires (s1 == RowVar(n) && s2 == st) || (s1 == st && s2 == RowVar(n))
    ensures BindRow(n, st) != Err(OutOfFuel)
    ensures BindRow(n, st).Ok? ==>
              var s := BindRow(n, st).value;
              && Solved(s, VarsOf(s1, s2), RowsOf(s1, s2))
              && AgreeStacks(ApplyStack(s, s1), ApplyStack(s, s2))
  {
    hide Solved, BindRow;
    BindRowSound(n, st);
    if BindRow(n, st).Ok? {
      var s := BindRow(n, st).value;
      AgreeRefl(ApplyStack(s, st));
      SolvedWiden(s, StackTypeVars(st), {n} + RowVars(st), VarsOf(s1, s2), RowsOf(s1, s2));
    }
  }

  /** No bare Variant and no closure, inside quotations either: then agreement is equality. */
  predicate PlainType(t: Type)
    decreases t
  {
    match t
    case Variant => false
    case Closure(_, _) => false
    case Quotation(e) => Plain(e.inputs) && Plain(e.outputs)
    case _ => true
  }

  predicate Plain(st: StackType) {
    match st
    case Cons(rest, top) => Plain(rest) && PlainType(top)
    case _ => true
  }

  lemma {:induction false} AgreeEqual(a: StackType, b: StackType)
    requires AgreeStacks(a, b) && Plain(a) && Plain(b)
    ensures a == b
    decreases a
  {
    if a.Cons? {
      AgreeEqual(a.rest, b.rest);
      AgreeTypesEqual(a.top, b.top);
    }
  }

  lemma {:induction false} AgreeTypesEqual(t: Type, u: Type)
    requires AgreeTypes(t, u) && PlainType(t) && PlainType(u)
    ensures t == u
    decreases t
  {
    if t.Quotation? {
      AgreeEqual(t.effect.inputs, u.effect.inputs);
      AgreeEqual(t.effect.outputs, u.effect.outputs);
    }
  }

  ghost predicate BindsPlain(s: Subst) {
    && (forall x :: x in s.types ==> PlainType(s.types[x]))
    && (forall r :: r in s.rows ==> Plain(s.rows[r]))
  }

  lemma {:induction false} ApplyPlain(s: Subst, st: StackType)
    requires BindsPlain(s) && Plain(st)
    ensures Plain(ApplyStack(s, st))
  {
    hide PlainType;
    if st.Cons? { ApplyPlain(s, st.rest); }
  }

  lemma ComposePlain(a: Subst, b: Subst)
    requires BindsPlain(a) && BindsPlain(b)
    ensures BindsPlain(Compose(a, b))
  {
    hide ApplyStack, PlainType;
    var c := Compose(a, b);
    forall r | r in c.rows ensures Plain(c.rows[r]) {
      if r in b.rows { ApplyPlain(a, b.rows[r]); } else { ApplyPlain(b, a.rows[r]); }
    }
  }

  lemma TopPlain(t1: Type, t2: Type, fuel: nat)
    requires FlatType(t1) && FlatType(t2) && PlainType(t1) && PlainType(t2)
    requires TypeSize(t1) <= fuel && TypeSize(t2) <= fuel
    ensures UnifyTypes(t1, t2, fuel).Ok? ==> BindsPlain(UnifyTypes(t1, t2, fuel).value)
  {
    hide UnifyTypes, BindType, VarFree, PlainType, TypeSize, AgreeTypes;
    UnifyVars(t1, t2, fuel);
    if t1.Var? {
      BindTypeIs(t1.name, t2);
    } else if t2.Var? {
      BindTypeIs(t2.name, t1);
    } else {
      FlatIsVarFree(t1);
      FlatIsVarFree(t2);
      VarFreeUnifyTypes(t1, t2, fuel);
    }
  }

  lemma NothingPlain()
    ensures BindsPlain(NO_SUBST)
  {
  }

  lemma BindRowPlain(n: string, st: StackType)
    requires Plain(st)
    ensures BindRow(n, st).Ok? ==> BindsPlain(BindRow(n, st).value)
  {
  }

  lemma {:induction false} UnifyPlain(s1: StackType, s2: StackType, fuel: nat)
    requires Flat(s1) && Flat(s2) && Plain(s1) && Plain(s2) && Need(s1, s2) <= fuel
    ensures UnifyStacks(s1, s2, fuel).Ok? ==> BindsPlain(UnifyStacks(s1, s2, fuel).value)
    decreases fuel
  {
    hide Compose, UnifyTypes, FlatType, PlainType, TypeSize, Solved, BindsWithin, AgreeTypes, ApplyType, BindRow,
        BindsPlain, VarsOf, RowsOf;
    match (s1, s2)
    case (Empty, Empty) => NothingPlain();
    case (RowVar(n), st) => BindRowPlain(n, st);
    case (st, RowVar(n)) => BindRowPlain(n, st);
    case (Cons(rest1, top1), Cons(rest2, top2)) =>
      TopPlain(top1, top2, fuel - 1);
      var top := UnifyTypes(top1, top2, fuel - 1);
      if top.Ok? {
        UnifyFlatTypes(top1, top2, fuel - 1);
        AfterTop(s1, s2, top.value);
        ApplyPlain(top.value, rest1);
        ApplyPlain(top.value, rest2);
        var r1, r2 := ApplyStack(top.value, rest1), ApplyStack(top.value, rest2);
        UnifyPlain(r1, r2, fuel - 1);
        if UnifyStacks(r1, r2, fuel - 1).Ok? { ComposePlain(top.value, UnifyStacks(r1, r2, fuel - 1).value); }
      }
    case _ =>
  }

  // ---- Principality ----

  /** theta already does all that s does: s followed by theta is theta. */
  ghost predicate Factors(theta: Subst, s: Subst) {
    && (forall x :: x in s.types ==> ApplyType(theta, s.types[x]) == ApplyType(theta, Var(x)))
    && (forall r :: r in s.rows ==> ApplyStack(theta, s.rows[r]) == ApplyStack(theta, RowVar(r)))
  }

  lemma FactorsType(theta: Subst, s: Subst, t: Type)
    requires Factors(theta, s)
    ensures ApplyType(theta, ApplyType(s, t)) == ApplyType(theta, t)
  {
  }

  lemma {:induction false} FactorsStack(theta: Subst, s: Subst, st: StackType)
    requires Factors(theta, s)
    ensures ApplyStack(theta, ApplyStack(s, st)) == ApplyStack(theta, st)
  {
    if st.Cons? {
      FactorsStack(theta, s, st.rest);
      FactorsType(theta, s, st.top);
    }
  }

  lemma FactorsCompose(theta: Subst, a: Subst, b: Subst)
    requires Factors(theta, a) && Factors(theta, b)
    ensures Factors(theta, Compose(a, b))
  {
    hide ApplyStack;
    var c := Compose(a, b);
    forall r | r in c.rows ensures ApplyStack(theta, c.rows[r]) == ApplyStack(theta, RowVar(r)) {
      if r in b.rows { FactorsStack(theta, a, b.rows[r]); } else { FactorsStack(theta, b, a.rows[r]); }
    }
    forall x | x in c.types ensures ApplyType(theta, c.types[x]) == ApplyType(theta, Var(x)) {
      if x in b.types { FactorsType(theta, a, b.types[x]); } else { FactorsType(theta, b, a.types[x]); }
    }
  }

  lemma {:induction false} OccursDeeper(theta: Subst, n: string, st: StackType)
    requires OccursInStack(n, st)
    ensures Depth(ApplyStack(theta, st)) == Depth(st) + Depth(ApplyStack(theta, RowVar(n)))
  {
    if st.Cons? { OccursDeeper(theta, n, st.rest); }
  }

  /** A row variable that can be made equal to a stack does not occur in it. */
  lemma BindRowPrincipal(n: string, st: StackType, theta: Subst)
    requires ApplyStack(theta, RowVar(n)) == ApplyStack(theta, st)
    ensures BindRow(n, st).Ok? && Factors(theta, BindRow(n, st).value)
  {
    if OccursInStack(n, st) { OccursDeeper(theta, n, st); }
  }

  /** The type variables at the element positions are among `names`, and the occurs check finds no
      name of `names` in any other element. */
  predicate Apart(names: set<string>, st: StackType) {
    match st
    case Cons(rest, top) => Apart(names, rest) && ApartType(names, top)
    case _ => true
  }

  predicate ApartType(names: set<string>, t: Type) {
    if t.Var? then t.name in names else forall v :: v in names ==> !OccursInType(v, t)
  }

  ghost predicate BindsApart(names: set<string>, s: Subst) {
    && (forall x :: x in s.types ==> ApartType(names, s.types[x]))
    && (forall r :: r in s.rows ==> Apart(names, s.rows[r]))
  }

  lemma {:induction false} ApplyApart(names: set<string>, s: Subst, st: StackType)
    requires BindsApart(names, s) && Apart(names, st)
    ensures Apart(names, ApplyStack(s, st))
  {
    hide ApartType;
    if st.Cons? { ApplyApart(names, s, st.rest); }
  }

  lemma ComposeApart(names: set<string>, a: Subst, b: Subst)
    requires BindsApart(names, a) && BindsApart(names, b)
    ensures BindsApart(names, Compose(a, b))
  {
    hide ApplyStack, ApartType;
    var c := Compose(a, b);
    forall r | r in c.rows ensures Apart(names, c.rows[r]) {
      if r in b.rows { ApplyApart(names, a, b.rows[r]); } else { ApplyApart(names, b, a.rows[r]); }
    }
  }

  /** A type is unified with itself by doing nothing, whatever is inside. */
  lemma {:induction false} UnifySelfTypes(t: Type, fuel: nat)
    requires TypeSize(t) <= fuel
    ensures UnifyTypes(t, t, fuel) == Ok(NO_SUBST)
    decreases fuel, 0
  {
    hide UnifyEffects, StackSize;
    if t.Quotation? || t.Closure? { UnifySelfEffects(t.effect, fuel - 1); }
  }

  lemma {:induction false} UnifySelfStacks(st: StackType, fuel: nat)
    requires StackSize(st) <= fuel
    ensures UnifyStacks(st, st, fuel) == Ok(NO_SUBST)
    decreases fuel, 0
  {
    hide UnifyTypes, Compose;
    if st.Cons? {
      ComposeNothing();
      ApplyNothing(st.rest);
      UnifySelfTypes(st.top, fuel - 1);
      UnifySelfStacks(st.rest, fuel - 1);
    }
  }

  lemma {:induction false} UnifySelfEffects(e: Effect, fuel: nat)
    requires StackSize(e.inputs) <= fuel && StackSize(e.outputs) <= fuel
    ensures UnifyEffects(e, e, fuel) == Ok(NO_SUBST)
    decreases fuel, 1
  {
    hide UnifyStacks, Compose, StackSize;
    ComposeNothing();
    ApplyNothing(e.outputs);
    UnifySelfStacks(e.inputs, fuel);
    UnifySelfStacks(e.outputs, fuel);
  }

  /** Two elements that some substitution makes equal: a variable is bound, anything else is equal already. */
  lemma UnifyTypesPrincipal(names: set<string>, t1: Type, t2: Type, theta: Subst, fuel: nat)
    requires ApartType(names, t1) && ApartType(names, t2) && ApplyType(theta, t1) == ApplyType(theta, t2)
    requires TypeSize(t1) <= fuel && TypeSize(t2) <= fuel
    ensures UnifyTypes(t1, t2, fuel).Ok?
    ensures var s := UnifyTypes(t1, t2, fuel).value;
            && Factors(theta, s) && BindsApart(names, s)
            && s.rows == map[] && BindsWithin(s, Max(TypeSize(t1), TypeSize(t2)))
  {
    hide UnifyTypes, BindType, TypeSize;
    UnifyVars(t1, t2, fuel);
    if t1.Var? {
      BindTypeIs(t1.name, t2);
    } else if t2.Var? {
      BindTypeIs(t2.name, t1);
    } else {
      UnifySelfTypes(t1, fuel);
    }
  }

  lemma NeedLess(s1: StackType, s2: StackType, a: Subst)
    requires s1.Cons? && s2.Cons?
    requires a.rows == map[] && BindsWithin(a, Max(TypeSize(s1.top), TypeSize(s2.top)))
    ensures Need(ApplyStack(a, s1.rest), ApplyStack(a, s2.rest)) < Need(s1, s2)
  {
    hide ApplyStack, TypeSize, BindsWithin;
    var size := Max(Nest(s1), Nest(s2));
    BindsWiden(a, Max(TypeSize(s1.top), TypeSize(s2.top)), size);
    DepthApply(a, s1.rest);
    NestApply(a, s1.rest, size);
    NestApply(a, s2.rest, size);
  }

  lemma {:induction false} ApartPrincipal(names: set<string>, s1: StackType, s2: StackType, theta: Subst, fuel: nat)
    requires Apart(names, s1) && Apart(names, s2) && Need(s1, s2) <= fuel
    requires ApplyStack(theta, s1) == ApplyStack(theta, s2)
    ensures UnifyStacks(s1, s2, fuel).Ok?
    ensures Factors(theta, UnifyStacks(s1, s2, fuel).value) && BindsApart(names, UnifyStacks(s1, s2, fuel).value)
    decreases fuel
  {
    hide BindRow, UnifyTypes, Compose, Factors, ApartType, TypeSize, BindsApart, BindsWithin, ApplyType;
    match (s1, s2)
    case (Empty, Empty) => NothingFactors(names, theta);
    case (RowVar(n), st) => BindRowPrincipal(n, st, theta); BindRowApart(names, n, st);
    case (st, RowVar(n)) => BindRowPrincipal(n, st, theta); BindRowApart(names, n, st);
    case (Cons(rest1, top1), Cons(rest2, top2)) =>
      UnifyTypesPrincipal(names, top1, top2, theta, fuel - 1);
      var a := UnifyTypes(top1, top2, fuel - 1).value;
      FactorsStack(theta, a, rest1);
      FactorsStack(theta, a, rest2);
      ApplyApart(names, a, rest1);
      ApplyApart(names, a, rest2);
      NeedLess(s1, s2, a);
      ApartPrincipal(names, ApplyStack(a, rest1), ApplyStack(a, rest2), theta, fuel - 1);
      var b := UnifyStacks(ApplyStack(a, rest1), ApplyStack(a, rest2), fuel - 1).value;
      FactorsCompose(theta, a, b);
      ComposeApart(names, a, b);
  }

  lemma BindRowApart(names: set<string>, n: string, st: StackType)
    requires Apart(names, st)
    ensures BindRow(n, st).Ok? ==> BindsApart(names, BindRow(n, st).value)
  {
  }

  /** No type variable of an element position is found by the occurs check in another element. */
  ghost predicate NamesApart(s1: StackType, s2: StackType) {
    Apart(VarsOf(s1, s2), s1) && Apart(VarsOf(s1, s2), s2)
  }

  /** Stacks that some substitution makes equal are unified, and by a most general substitution;
      variables may be nested in quotations to any depth. */
  lemma UnifyPrincipal(s1: StackType, s2: StackType, theta: Subst, fuel: nat)
    requires NamesApart(s1, s2) && Need(s1, s2) <= fuel
    requires ApplyStack(theta, s1) == ApplyStack(theta, s2)
    ensures UnifyStacks(s1, s2, fuel).Ok?
    ensures Factors(theta, UnifyStacks(s1, s2, fuel).value)
  {
    hide UnifyStacks, Factors, Apart, Need, ApplyStack;
    ApartPrincipal(VarsOf(s1, s2), s1, s2, theta, fuel);
  }

  /** No captured type mentions a name of `names`. */
  predicate CapturesApart(names: set<string>, st: StackType) {
    match st
    case Cons(rest, top) =>
      && CapturesApart(names, rest)
      && (top.Closure? ==> forall v, k :: v in names && 0 <= k < |top.captures| ==> !OccursInType(v, top.captures[k]))
    case _ => true
  }

  /** Flat stacks are apart, but for captures. */
  lemma {:induction false} FlatApart(names: set<string>, st: StackType)
    requires Flat(st) && StackTypeVars(st) <= names
    ensures Apart(names, st) <==> CapturesApart(names, st)
  {
    hide VarFree, OccursInType;
    if st.Cons? {
      FlatApart(names, st.rest);
      var t := st.top;
      if !t.Var? {
        FlatIsVarFree(t);
        forall v ensures OccursInType(v, t) <==>
            t.Closure? && exists k :: 0 <= k < |t.captures| && OccursInType(v, t.captures[k])
        {
          VarFreeOccurs(v, t);
        }
      }
    }
  }

  lemma {:induction false} PlainCaptures(names: set<string>, st: StackType)
    requires Plain(st)
    ensures CapturesApart(names, st)
  {
    if st.Cons? { PlainCaptures(names, st.rest); }
  }

  lemma PlainApart(s1: StackType, s2: StackType)
    requires Flat(s1) && Flat(s2) && Plain(s1) && Plain(s2)
    ensures NamesApart(s1, s2)
  {
    hide Flat, Plain, Apart, CapturesApart;
    FlatApart(VarsOf(s1, s2), s1);
    FlatApart(VarsOf(s1, s2), s2);
    PlainCaptures(VarsOf(s1, s2), s1);
    PlainCaptures(VarsOf(s1, s2), s2);
  }

  // ---- Why the names must be apart ----

  /** The element positions hold type variables of `names` and other types in which the occurs
      check finds names of `inner` only. */
  ghost predicate NamedBy(names: set<string>, inner: set<string>, st: StackType) {
    match st
    case Cons(rest, top) =>
      && NamedBy(names, inner, rest)
      && (if top.Var? then top.name in names else forall v :: OccursInType(v, top) ==> v in inner)
    case _ => true
  }

  /** With names from the two sets, whatever some substitution makes equal is unified. */
  ghost predicate Complete(names: set<string>, inner: set<string>) {
    forall s1, s2, theta, fuel: nat :: NamedBy(names, inner, s1) && NamedBy(names, inner, s2) ==>
        UnifiedIfEqual(s1, s2, theta, fuel)
  }

  ghost predicate UnifiedIfEqual(s1: StackType, s2: StackType, theta: Subst, fuel: nat) {
    Need(s1, s2) <= fuel && ApplyStack(theta, s1) == ApplyStack(theta, s2) ==> UnifyStacks(s1, s2, fuel).Ok?
  }

  /** Unification is complete exactly when type variables share no name with what the occurs check
      finds inside quotations and closures, row variables included. */
  lemma CompleteIffDisjoint(names: set<string>, inner: set<string>)
    ensures Complete(names, inner) <==> names !! inner
  {
    hide UnifiedIfEqual, NamedBy;
    if names !! inner {
      forall s1, s2, theta, fuel: nat | NamedBy(names, inner, s1) && NamedBy(names, inner, s2)
        ensures UnifiedIfEqual(s1, s2, theta, fuel)
      {
        DisjointUnified(names, inner, s1, s2, theta, fuel);
      }
    } else {
      var v :| v in names && v in inner;
      CounterexampleNamed(names, inner, v);
      SharedNameRefused(v);
      var t := Quotation(Effect(RowVar(v), Empty));
      assert !UnifiedIfEqual(Cons(Empty, Var(v)), Cons(Empty, t), Subst(map[v := t], map[]), 2);
    }
  }

  lemma SharedNameRefused(v: string)
    ensures var t := Quotation(Effect(RowVar(v), Empty));
            !UnifiedIfEqual(Cons(Empty, Var(v)), Cons(Empty, t), Subst(map[v := t], map[]), 2)
  {
    hide UnifyStacks, ApplyStack, Need;
    OccursCounterexample(v);
  }

  lemma DisjointUnified(names: set<string>, inner: set<string>, s1: StackType, s2: StackType, theta: Subst, fuel: nat)
    requires names !! inner && NamedBy(names, inner, s1) && NamedBy(names, inner, s2)
    ensures UnifiedIfEqual(s1, s2, theta, fuel)
  {
    hide UnifyStacks, Need, ApplyStack, NamedBy, Apart;
    NamedApart(names, inner, s1);
    NamedApart(names, inner, s2);
    if Need(s1, s2) <= fuel && ApplyStack(theta, s1) == ApplyStack(theta, s2) {
      ApartPrincipal(names, s1, s2, theta, fuel);
    }
  }

  lemma {:induction false} NamedApart(names: set<string>, inner: set<string>, st: StackType)
    requires names !! inner && NamedBy(names, inner, st)
    ensures Apart(names, st)
  {
    hide OccursInType;
    if st.Cons? { NamedApart(names, inner, st.rest); }
  }

  lemma CounterexampleNamed(names: set<string>, inner: set<string>, v: string)
    requires v in names && v in inner
    ensures NamedBy(names, inner, Cons(Empty, Var(v)))
    ensures NamedBy(names, inner, Cons(Empty, Quotation(Effect(RowVar(v), Empty))))
  {
    var e := Effect(RowVar(v), Empty);
    forall u | OccursInType(u, Quotation(e)) ensures u == v {
      assert OccursInStack(u, e.inputs) || OccursInStack(u, e.outputs);
    }
  }

  /** The occurs check takes the name of a row variable for the name of a type variable. */
  lemma OccursCounterexample(v: string)
    ensures var t := Quotation(Effect(RowVar(v), Empty));
            var theta := Subst(map[v := t], map[]);
            && ApplyStack(theta, Cons(Empty, Var(v))) == ApplyStack(theta, Cons(Empty, t))
            && Need(Cons(Empty, Var(v)), Cons(Empty, t)) == 2
            && UnifyStacks(Cons(Empty, Var(v)), Cons(Empty, t), 2) == Err(OccursCheck)
  {
    var t := Quotation(Effect(RowVar(v), Empty));
    var theta := Subst(map[v := t], map[]);
    assert OccursInStack(v, t.effect.inputs);
    assert OccursInType(v, t);
    assert BindType(v, t) == Err(OccursCheck);
    assert UnifyTypes(Var(v), t, 1) == BindType(v, t);
    assert ApplyStack(theta, Empty) == Empty && ApplyType(theta, Var(v)) == t == ApplyType(theta, t);
    assert StackSize(RowVar(v)) == StackSize(Empty) == 0;
    assert TypeSize(t) == 1 && Nest(Empty) == 0;
    assert Nest(Cons(Empty, Var(v))) == 0 && Nest(Cons(Empty, t)) == 1;
    assert Depth(Empty) == 0 && Depth(Cons(Empty, Var(v))) == 1;
  }

  lemma NothingFactors(names: set<string>, theta: Subst)
    ensures Factors(theta, NO_SUBST) && BindsApart(names, NO_SUBST)
  {
  }

  /** Unification decides unifiability: on plain stacks it succeeds exactly on those that some
      substitution makes equal. */
  lemma UnifiesIffUnifiable(s1: StackType, s2: StackType, fuel: nat)
    requires Flat(s1) && Flat(s2) && Plain(s1) && Plain(s2) && Need(s1, s2) <= fuel
    ensures UnifyStacks(s1, s2, fuel).Ok? <==> exists theta :: ApplyStack(theta, s1) == ApplyStack(theta, s2)
  {
    hide UnifyStacks, Solved, BindsPlain, Factors, Plain, Flat, Need, AgreeStacks, ApplyStack;
    if UnifyStacks(s1, s2, fuel).Ok? {
      var s := UnifyStacks(s1, s2, fuel).value;
      UnifySound(s1, s2, fuel);
      UnifyPlain(s1, s2, fuel);
      ApplyPlain(s, s1);
      ApplyPlain(s, s2);
      AgreeEqual(ApplyStack(s, s1), ApplyStack(s, s2));
    }
    if theta :| ApplyStack(theta, s1) == ApplyStack(theta, s2) {
      PlainApart(s1, s2);
      UnifyPrincipal(s1, s2, theta, fuel);
    }
  }

  // ---- Stack effects ----

  predicate FlatEffect(e: Effect) {
    Flat(e.inputs) && Flat(e.outputs)
  }

  ghost function EffectVars(e1: Effect, e2: Effect): set<string> {
    VarsOf(e1.inputs, e2.inputs) + VarsOf(e1.outputs, e2.outputs)
  }

  ghost function EffectRows(e1: Effect, e2: Effect): set<string> {
    RowsOf(e1.inputs, e2.inputs) + RowsOf(e1.outputs, e2.outputs)
  }

  /** The fuel that both calls made by `unify_effects` need: a bound that depends on the effects alone. */
  ghost function EffectDepth(e1: Effect, e2: Effect): nat {
    var ins := UnifyStacks(e1.inputs, e2.inputs, Need(e1.inputs, e2.inputs));
    Need(e1.inputs, e2.inputs)
    + (if ins.Ok? then Need(ApplyStack(ins.value, e1.outputs), ApplyStack(ins.value, e2.outputs)) else 0)
  }

  lemma UnifyEffectsSound(e1: Effect, e2: Effect, fuel: nat)
    requires FlatEffect(e1) && FlatEffect(e2) && EffectDepth(e1, e2) <= fuel
    ensures UnifyEffects(e1, e2, fuel) != Err(OutOfFuel)
    ensures UnifyEffects(e1, e2, fuel).Ok? ==>
              var s := UnifyEffects(e1, e2, fuel).value;
              && Solved(s, EffectVars(e1, e2), EffectRows(e1, e2))
              && AgreeStacks(ApplyStack(s, e1.inputs), ApplyStack(s, e2.inputs))
              && AgreeStacks(ApplyStack(s, e1.outputs), ApplyStack(s, e2.outputs))
  {
    hide UnifyStacks, Solved, Compose, Need, AgreeTypes, ApplyType, FlatType;
    UnifySound(e1.inputs, e2.inputs, Need(e1.inputs, e2.inputs));
    MoreFuelStacks(e1.inputs, e2.inputs, Need(e1.inputs, e2.inputs), fuel);
    var tv, rv := EffectVars(e1, e2), EffectRows(e1, e2);
    UnifySound(e1.inputs, e2.inputs, fuel);
    if UnifyStacks(e1.inputs, e2.inputs, fuel).Ok? {
      var a := UnifyStacks(e1.inputs, e2.inputs, fuel).value;
      SolvedWiden(a, VarsOf(e1.inputs, e2.inputs), RowsOf(e1.inputs, e2.inputs), tv, rv);
      var o1, o2 := ApplyStack(a, e1.outputs), ApplyStack(a, e2.outputs);
      ApplySolved(a, tv, rv, e1.outputs);
      ApplySolved(a, tv, rv, e2.outputs);
      UnifySound(o1, o2, fuel);
      if UnifyStacks(o1, o2, fuel).Ok? {
        var b := UnifyStacks(o1, o2, fuel).value;
        SolvedWiden(b, VarsOf(o1, o2), RowsOf(o1, o2), tv - a.types.Keys, rv - a.rows.Keys);
        ComposeSolved(a, b, tv, rv);
        ComposeStack(a, b, e1.inputs);
        ComposeStack(a, b, e2.inputs);
        ComposeStack(a, b, e1.outputs);
        ComposeStack(a, b, e2.outputs);
        AgreeApply(b, ApplyStack(a, e1.inputs), ApplyStack(a, e2.inputs));
      }
    }
  }

  /** Like NamesApart, for the four stacks of two effects. */
  ghost predicate EffectsApart(e1: Effect, e2: Effect) {
    var names := EffectVars(e1, e2);
    Apart(names, e1.inputs) && Apart(names, e2.inputs) && Apart(names, e1.outputs) && Apart(names, e2.outputs)
  }

  lemma UnifyEffectsPrincipal(e1: Effect, e2: Effect, theta: Subst, fuel: nat)
    requires EffectsApart(e1, e2) && EffectDepth(e1, e2) <= fuel
    requires ApplyStack(theta, e1.inputs) == ApplyStack(theta, e2.inputs)
    requires ApplyStack(theta, e1.outputs) == ApplyStack(theta, e2.outputs)
    ensures UnifyEffects(e1, e2, fuel).Ok? && Factors(theta, UnifyEffects(e1, e2, fuel).value)
  {
    hide UnifyEffects, EffectVars, Apart, EffectDepth, ApplyStack, Factors;
    EffectsPrincipal(EffectVars(e1, e2), e1, e2, theta, fuel);
  }

  predicate ApartEffect(names: set<string>, e: Effect) {
    Apart(names, e.inputs) && Apart(names, e.outputs)
  }

  ghost predicate SolvesEffects(theta: Subst, e1: Effect, e2: Effect) {
    && ApplyStack(theta, e1.inputs) == ApplyStack(theta, e2.inputs)
    && ApplyStack(theta, e1.outputs) == ApplyStack(theta, e2.outputs)
  }

  lemma EffectsPrincipal(names: set<string>, e1: Effect, e2: Effect, theta: Subst, fuel: nat)
    requires ApartEffect(names, e1) && ApartEffect(names, e2) && EffectDepth(e1, e2) <= fuel
    requires SolvesEffects(theta, e1, e2)
    ensures UnifyEffects(e1, e2, fuel).Ok?
    ensures Factors(theta, UnifyEffects(e1, e2, fuel).value) && BindsApart(names, UnifyEffects(e1, e2, fuel).value)
  {
    hide UnifyStacks, Compose, Need, Factors, Apart, BindsApart;
    ApartPrincipal(names, e1.inputs, e2.inputs, theta, Need(e1.inputs, e2.inputs));
    MoreFuelStacks(e1.inputs, e2.inputs, Need(e1.inputs, e2.inputs), fuel);
    ApartPrincipal(names, e1.inputs, e2.inputs, theta, fuel);
    var a := UnifyStacks(e1.inputs, e2.inputs, fuel).value;
    var o1, o2 := ApplyStack(a, e1.outputs), ApplyStack(a, e2.outputs);
    ApplyApart(names, a, e1.outputs);
    ApplyApart(names, a, e2.outputs);
    FactorsStack(theta, a, e1.outputs);
    FactorsStack(theta, a, e2.outputs);
    ApartPrincipal(names, o1, o2, theta, fuel);
    FactorsCompose(theta, a, UnifyStacks(o1, o2, fuel).value);
    ComposeApart(names, a, UnifyStacks(o1, o2, fuel).value);
  }

  // ---- Quotations and closures against each other, in all four combinations ----

  predicate Callable(t: Type) {
    t.Quotation? || t.Closure?
  }

  /** What the quotation's or closure's effects become under one substitution. */
  predicate AgreeUnder(s: Subst, e1: Effect, e2: Effect) {
    && AgreeStacks(ApplyStack(s, e1.inputs), ApplyStack(s, e2.inputs))
    && AgreeStacks(ApplyStack(s, e1.outputs), ApplyStack(s, e2.outputs))
  }

  /** Enough fuel for either order of the two effects. */
  ghost function PairDepth(t1: Type, t2: Type): nat
    requires Callable(t1) && Callable(t2)
  {
    1 + EffectDepth(t1.effect, t2.effect) + EffectDepth(t2.effect, t1.effect)
  }

  lemma PairIsEffects(t1: Type, t2: Type, fuel: nat)
    requires Callable(t1) && Callable(t2) && fuel > 0
    ensures || UnifyTypes(t1, t2, fuel) == UnifyEffects(t1.effect, t2.effect, fuel - 1)
            || UnifyTypes(t1, t2, fuel) == UnifyEffects(t2.effect, t1.effect, fuel - 1)
  {
    hide UnifyEffects;
  }

  /** What unifying two quotations or closures with flat effects succeeds with makes inputs agree and
      outputs agree. */
  lemma UnifyPairSound(t1: Type, t2: Type, fuel: nat)
    requires Callable(t1) && Callable(t2) && FlatEffect(t1.effect) && FlatEffect(t2.effect)
    requires PairDepth(t1, t2) <= fuel
    ensures UnifyTypes(t1, t2, fuel) != Err(OutOfFuel)
    ensures UnifyTypes(t1, t2, fuel).Ok? ==>
              var s := UnifyTypes(t1, t2, fuel).value;
              && Solved(s, EffectVars(t1.effect, t2.effect), EffectRows(t1.effect, t2.effect))
              && AgreeUnder(s, t1.effect, t2.effect)
  {
    hide UnifyTypes, UnifyEffects, Solved, EffectDepth, Flat, AgreeStacks, ApplyStack;
    var (e1, e2) := (t1.effect, t2.effect);
    PairIsEffects(t1, t2, fuel);
    UnifyEffectsSound(e1, e2, fuel - 1);
    UnifyEffectsSound(e2, e1, fuel - 1);
    assert EffectVars(e1, e2) == EffectVars(e2, e1) && EffectRows(e1, e2) == EffectRows(e2, e1);
    if UnifyTypes(t1, t2, fuel).Ok? {
      var s := UnifyTypes(t1, t2, fuel).value;
      if AgreeUnder(s, e2, e1) {
        AgreeSym(ApplyStack(s, e2.inputs), ApplyStack(s, e1.inputs));
        AgreeSym(ApplyStack(s, e2.outputs), ApplyStack(s, e1.outputs));
      }
    }
  }

  /** And whatever substitution solves inputs and outputs factors through it. */
  lemma UnifyPairPrincipal(names: set<string>, t1: Type, t2: Type, theta: Subst, fuel: nat)
    requires Callable(t1) && Callable(t2) && ApartEffect(names, t1.effect) && ApartEffect(names, t2.effect)
    requires PairDepth(t1, t2) <= fuel && SolvesEffects(theta, t1.effect, t2.effect)
    ensures UnifyTypes(t1, t2, fuel).Ok?
    ensures var s := UnifyTypes(t1, t2, fuel).value; Factors(theta, s) && BindsApart(names, s)
  {
    hide UnifyTypes, UnifyEffects, Factors, BindsApart, EffectDepth, Apart, ApplyStack;
    PairIsEffects(t1, t2, fuel);
    EffectsPrincipal(names, t1.effect, t2.effect, theta, fuel - 1);
    EffectsPrincipal(names, t2.effect, t1.effect, theta, fuel - 1);
  }

  /** Enough fuel for two stacks with a quotation or closure on top. */
  ghost function PairOnTopDepth(s1: StackType, s2: StackType): nat
    requires s1.Cons? && s2.Cons? && Callable(s1.top) && Callable(s2.top)
  {
    var depth := PairDepth(s1.top, s2.top);
    var top := UnifyTypes(s1.top, s2.top, depth);
    1 + depth + (if top.Ok? then Need(ApplyStack(top.value, s1.rest), ApplyStack(top.value, s2.rest)) else 0)
  }

  lemma PairOnTopFuel(s1: StackType, s2: StackType, fuel: nat)
    requires s1.Cons? && s2.Cons? && Callable(s1.top) && Callable(s2.top)
    requires PairOnTopDepth(s1, s2) <= fuel && UnifyTypes(s1.top, s2.top, PairDepth(s1.top, s2.top)) != Err(OutOfFuel)
    ensures var top := UnifyTypes(s1.top, s2.top, fuel - 1);
            && PairDepth(s1.top, s2.top) <= fuel - 1
            && (top.Ok? ==> Need(ApplyStack(top.value, s1.rest), ApplyStack(top.value, s2.rest)) <= fuel - 1)
            && (top.Ok? ==>
                  var rest := UnifyStacks(ApplyStack(top.value, s1.rest), ApplyStack(top.value, s2.rest), fuel - 1);
                  UnifyStacks(s1, s2, fuel) == if rest.Ok? then Ok(Compose(top.value, rest.value)) else rest)
            && (top.Err? ==> UnifyStacks(s1, s2, fuel) == top)
  {
    hide UnifyTypes, PairDepth, Need, ApplyStack, Compose;
    MoreFuelTypes(s1.top, s2.top, PairDepth(s1.top, s2.top), fuel - 1);
  }

  /** The variables inside the element on top take part: unifying it is seen by the rest, and the
      rest is seen by what it was unified to. */
  lemma PairOnTopSound(s1: StackType, s2: StackType, fuel: nat)
    requires s1.Cons? && s2.Cons? && Callable(s1.top) && Callable(s2.top)
    requires FlatEffect(s1.top.effect) && FlatEffect(s2.top.effect) && Flat(s1.rest) && Flat(s2.rest)
    requires PairOnTopDepth(s1, s2) <= fuel
    ensures UnifyStacks(s1, s2, fuel) != Err(OutOfFuel)
    ensures UnifyStacks(s1, s2, fuel).Ok? ==>
              var s := UnifyStacks(s1, s2, fuel).value;
              && AgreeUnder(s, s1.top.effect, s2.top.effect)
              && AgreeStacks(ApplyStack(s, s1.rest), ApplyStack(s, s2.rest))
  {
    hide UnifyStacks, UnifyTypes, PairDepth, PairOnTopDepth, Need, ApplyStack, Compose, Solved, AgreeStacks, Flat,
        Separate;
    var (e1, e2) := (s1.top.effect, s2.top.effect);
    UnifyPairSound(s1.top, s2.top, PairDepth(s1.top, s2.top));
    PairOnTopFuel(s1, s2, fuel);
    UnifyPairSound(s1.top, s2.top, fuel - 1);
    if UnifyTypes(s1.top, s2.top, fuel - 1).Ok? {
      var a := UnifyTypes(s1.top, s2.top, fuel - 1).value;
      var r1, r2 := ApplyStack(a, s1.rest), ApplyStack(a, s2.rest);
      var tv := EffectVars(e1, e2) + VarsOf(s1.rest, s2.rest);
      var rv := EffectRows(e1, e2) + RowsOf(s1.rest, s2.rest);
      SolvedWiden(a, EffectVars(e1, e2), EffectRows(e1, e2), tv, rv);
      ApplySolved(a, tv, rv, s1.rest);
      ApplySolved(a, tv, rv, s2.rest);
      UnifySound(r1, r2, fuel - 1);
      if UnifyStacks(r1, r2, fuel - 1).Ok? {
        var b := UnifyStacks(r1, r2, fuel - 1).value;
        SolvedWiden(b, VarsOf(r1, r2), RowsOf(r1, r2), tv - a.types.Keys, rv - a.rows.Keys);
        ComposeSolved(a, b, tv, rv);
        AgreeUnderCompose(a, b, e1, e2);
        ComposeStack(a, b, s1.rest);
        ComposeStack(a, b, s2.rest);
      }
    }
  }

  lemma AgreeUnderCompose(a: Subst, b: Subst, e1: Effect, e2: Effect)
    requires Separate(a, b) && AgreeUnder(a, e1, e2)
    ensures AgreeUnder(Compose(a, b), e1, e2)
  {
    hide Separate, AgreeStacks, ApplyStack, Compose;
    ComposeStack(a, b, e1.inputs);
    ComposeStack(a, b, e2.inputs);
    ComposeStack(a, b, e1.outputs);
    ComposeStack(a, b, e2.outputs);
    AgreeApply(b, ApplyStack(a, e1.inputs), ApplyStack(a, e2.inputs));
    AgreeApply(b, ApplyStack(a, e1.outputs), ApplyStack(a, e2.outputs));
  }

  /** And such stacks are unified whenever some substitution solves the effects on top and the rests. */
  lemma PairOnTopPrincipal(names: set<string>, s1: StackType, s2: StackType, theta: Subst, fuel: nat)
    requires s1.Cons? && s2.Cons? && Callable(s1.top) && Callable(s2.top)
    requires ApartEffect(names, s1.top.effect) && ApartEffect(names, s2.top.effect)
    requires Apart(names, s1.rest) && Apart(names, s2.rest)
    requires PairOnTopDepth(s1, s2) <= fuel
    requires SolvesEffects(theta, s1.top.effect, s2.top.effect)
    requires ApplyStack(theta, s1.rest) == ApplyStack(theta, s2.rest)
    ensures UnifyStacks(s1, s2, fuel).Ok? && Factors(theta, UnifyStacks(s1, s2, fuel).value)
  {
    hide UnifyStacks, UnifyTypes, PairDepth, PairOnTopDepth, Need, ApplyStack, Compose, Factors, Apart, BindsApart;
    UnifyPairPrincipal(names, s1.top, s2.top, theta, PairDepth(s1.top, s2.top));
    PairOnTopFuel(s1, s2, fuel);
    UnifyPairPrincipal(names, s1.top, s2.top, theta, fuel - 1);
    var a := UnifyTypes(s1.top, s2.top, fuel - 1).value;
    ApplyApart(names, a, s1.rest);
    ApplyApart(names, a, s2.rest);
    FactorsStack(theta, a, s1.rest);
    FactorsStack(theta, a, s2.rest);
    var r1, r2 := ApplyStack(a, s1.rest), ApplyStack(a, s2.rest);
    ApartPrincipal(names, r1, r2, theta, fuel - 1);
    FactorsCompose(theta, a, UnifyStacks(r1, r2, fuel - 1).value);
  }

  // ---- Where the limits are ----

  /** With variables inside quotations success does not mean agreement: T is asked to be Int on
      top and Bool inside the quotation, and the later binding wins. */
  lemma NestedCounterexample()
    ensures var q1 := Quotation(Effect(Cons(Empty, Var("T")), Empty));
            var q2 := Quotation(Effect(Cons(Empty, Bool), Empty));
            var s1 := Cons(Cons(Empty, q1), Var("T"));
            var s2 := Cons(Cons(Empty, q2), Int);
            var r := UnifyStacks(s1, s2, 4);
            r.Ok? && ApplyStack(r.value, s1).top == Bool && ApplyStack(r.value, s2).top == Int
  {
    var in1, in2 := Cons(Empty, Var("T")), Cons(Empty, Bool);
    var e1, e2 := Effect(in1, Empty), Effect(in2, Empty);
    var q1, q2 := Quotation(e1), Quotation(e2);
    var a := Subst(map["T" := Int], map[]);
    var b := Subst(map["T" := Bool], map[]);
    assert UnifyTypes(Var("T"), Int, 3) == Ok(a);
    assert UnifyTypes(Var("T"), Bool, 0) == Ok(b);
    assert UnifyStacks(Empty, Empty, 0) == Ok(NO_SUBST);
    assert Compose(b, NO_SUBST) == b;
    assert UnifyStacks(in1, in2, 1) == Ok(b);
    assert UnifyStacks(Empty, Empty, 1) == Ok(NO_SUBST) && UnifyStacks(Empty, Empty, 2) == Ok(NO_SUBST);
    assert UnifyEffects(e1, e2, 1) == Ok(b);
    assert UnifyTypes(q1, q2, 2) == Ok(b);
    assert UnifyStacks(Cons(Empty, q1), Cons(Empty, q2), 3) == Ok(b);
    assert Compose(a, b) == b;
  }

  /** Up to the Union/Variant relaxation the code is not complete: T := Variant would do for
      both positions, but T is bound to the first union and then refused the second. */
  lemma RelaxationCounterexample()
    ensures var s1 := Cons(Cons(Empty, Var("T")), Var("T"));
            var s2 := Cons(Cons(Empty, Union("A")), Union("B"));
            var theta := Subst(map["T" := Variant], map[]);
            && AgreeStacks(ApplyStack(theta, s1), ApplyStack(theta, s2))
            && UnifyStacks(s1, s2, 2) == Err(Mismatch)
  {
    assert UnifyTypes(Var("T"), Union("B"), 1) == Ok(Subst(map["T" := Union("B")], map[]));
    assert UnifyTypes(Union("B"), Union("A"), 0) == Err(Mismatch);
    assert UnifyStacks(Cons(Empty, Union("B")), Cons(Empty, Union("A")), 1) == Err(Mismatch);
  }
}
