/** Lowering keeps the meaning of a program: the lowered run agrees with the
    original run for every amount of fuel, up to lowering of the quotations that
    are on the stack. */
module LoweringCorrect {
  import opened Ast
  import opened Wrappers
  import opened Normalize
  import opened Semantics

  // ---- Lowering of run-time data ----

  function LowerValue(v: Value): Value {
    match v
    case Quot(body) => Quot(Lower(body))
    case Tagged(tag, fields) => Tagged(tag, LowerStack(fields))
    case _ => v
  }

  function LowerStack(st: Stack): Stack {
    match st
    case Empty => Empty
    case Push(v, rest) => Push(LowerValue(v), LowerStack(rest))
  }

  function LowerOutcome(o: Outcome): Outcome {
    match o
    case Done(st) => Done(LowerStack(st))
    case _ => o
  }

  /** The lowered words, under the rules of the runtime. */
  function LowerEnv(env: Env): Env {
    env.(words := map w | w in env.words :: Lower(env.words[w]), literalIf := Strict)
  }

  /** The lowered run ends as the other one does. */
  predicate Agrees(o: Outcome, lowered: Outcome) {
    lowered == LowerOutcome(o)
  }

  // ---- Everything that only moves values commutes with lowering ----

  lemma LowerLiteral(v: Value)
    ensures v.Int? || v.Float? || v.Bool? || v.Str? || v.Sym? ==> LowerValue(v) == v
    ensures v.Quot? ==> LowerValue(v) == Quot(Lower(v.body))
    ensures v.Tagged? ==> LowerValue(v) == Tagged(v.tag, LowerStack(v.fields))
  {
  }

  lemma LowerEmpty()
    ensures LowerStack(Empty) == Empty
  {
  }

  lemma LowerPushes()
    ensures forall v, r {:trigger LowerStack(Push(v, r))} ::
        LowerStack(Push(v, r)) == Push(LowerValue(v), LowerStack(r))
  {
  }

  lemma {:induction false} LowerGround(st: Stack)
    ensures GroundStack(st) ==> LowerStack(st) == st
    ensures GroundStack(LowerStack(st)) == GroundStack(st)
    decreases st
  {
    hide Lower;
    if st.Push? {
      LowerGround(st.rest);
      LowerLiteral(st.top);
      assert GroundStack(st) == (Ground(st.top) && GroundStack(st.rest));
      assert LowerStack(st) == Push(LowerValue(st.top), LowerStack(st.rest));
      if st.top.Tagged? {
        LowerGround(st.top.fields);
        assert Ground(st.top) == GroundStack(st.top.fields);
      }
    }
  }

  function LowerSplit(o: Option<(Stack, Stack)>): Option<(Stack, Stack)> {
    if o.None? then None else Some((LowerStack(o.value.0), LowerStack(o.value.1)))
  }

  function LowerOption(o: Option<Stack>): Option<Stack> {
    if o.None? then None else Some(LowerStack(o.value))
  }

  lemma {:induction false} LowerTake(st: Stack, n: nat)
    ensures Take(LowerStack(st), n) == LowerSplit(Take(st, n))
  {
    hide LowerValue;
    if n > 0 && st.Push? { LowerTake(st.rest, n - 1); }
  }

  lemma {:induction false} LowerAppend(a: Stack, b: Stack)
    ensures LowerStack(Append(a, b)) == Append(LowerStack(a), LowerStack(b))
  {
    hide LowerValue;
    if a.Push? { LowerAppend(a.rest, b); }
  }

  lemma {:induction false} LowerPushAll(vs: Stack, st: Stack)
    ensures LowerStack(PushAll(vs, st)) == PushAll(LowerStack(vs), LowerStack(st))
    decreases vs
  {
    hide LowerValue;
    if vs.Push? { LowerPushAll(vs.rest, Push(vs.top, st)); }
  }

  lemma LowerTop(st: Stack)
    ensures LowerStack(st).Push? == st.Push?
    ensures st.Push? ==> LowerStack(st).top == LowerValue(st.top) && LowerStack(st).rest == LowerStack(st.rest)
  {
  }

  lemma LowerMoves(op: Op, st: Stack)
    requires !op.MakeVariant?
    ensures Shuffle(op, LowerStack(st)) == LowerOutcome(Shuffle(op, st))
  {
    hide LowerStack, LowerValue;
    LowerPushes();
    LowerTop(st);
    if st.Push? {
      LowerTop(st.rest);
      if st.rest.Push? { LowerTop(st.rest.rest); }
    }
  }

  lemma LowerMake(n: nat, st: Stack)
    ensures Shuffle(MakeVariant(n), LowerStack(st)) == LowerOutcome(Shuffle(MakeVariant(n), st))
  {
    hide LowerStack, LowerValue, Take, PushAll;
    LowerPushes();
    LowerEmpty();
    LowerTop(st);
    if st.Push? {
      LowerLiteral(st.top);
      LowerTake(st.rest, n);
      match Take(st.rest, n)
      case Some((fields, back)) =>
        LowerPushAll(fields, Empty);
        if st.top.Sym? { LowerLiteral(Tagged(st.top.name, PushAll(fields, Empty))); }
      case None =>
    }
  }

  lemma LowerPrim(p: Prim, st: Stack)
    ensures RunPrim(p, LowerStack(st)) == LowerOutcome(RunPrim(p, st))
  {
    hide LowerStack, GroundStack;
    LowerTake(st, p.arity);
    match Take(st, p.arity)
    case None =>
    case Some((args, back)) =>
      LowerGround(args);
      if GroundStack(args) && p.apply(args).Some? {
        LowerGround(p.apply(args).value);
        LowerAppend(p.apply(args).value, back);
      }
  }

  lemma {:induction false} LowerFieldNamed(b: string, names: seq<string>, fields: Stack)
    ensures FieldNamed(b, names, LowerStack(fields)) ==
            match FieldNamed(b, names, fields) case None => None case Some(v) => Some(LowerValue(v))
    decreases |names|
  {
    hide LowerValue;
    if |names| > 0 && fields.Push? { LowerFieldNamed(b, names[1..], fields.rest); }
  }

  lemma {:induction false} LowerPushBindings(bindings: seq<string>, names: seq<string>, fields: Stack, st: Stack)
    ensures PushBindings(bindings, names, LowerStack(fields), LowerStack(st)) ==
            LowerOption(PushBindings(bindings, names, fields, st))
    decreases |bindings|
  {
    hide LowerValue, FieldNamed;
    if |bindings| > 0 {
      LowerFieldNamed(bindings[0], names, fields);
      match FieldNamed(bindings[0], names, fields)
      case None =>
      case Some(v) => LowerPushBindings(bindings[1..], names, fields, Push(v, st));
    }
  }

  lemma LowerUnpack(env: Env, p: Pattern, fields: Stack, st: Stack)
    ensures Unpack(LowerEnv(env), p, LowerStack(fields), LowerStack(st)) ==
            LowerOption(Unpack(env, p, fields, st))
  {
    hide LowerStack, Take, PushBindings, PushAll;
    if p.name in env.fieldNames {
      var names := env.fieldNames[p.name];
      match p {
        case Variant(_) =>
          LowerTake(fields, |names|);
          if Take(fields, |names|).Some? { LowerPushAll(Take(fields, |names|).value.0, st); }
        case VariantWithBindings(_, bindings) =>
          LowerPushBindings(bindings, names, fields, st);
      }
    }
  }

  // ---- Runs ----

  /** A literal triple on the given stack, under the loose rule. */
  function LooseTriple(env: Env, t: seq<Statement>, e: seq<Statement>, st: Stack, fuel: nat): Outcome {
    if st.Push? && !st.top.Bool? then Enter(env, if PayloadNonZero(st.top) then t else e, st.rest, fuel)
    else Word(env, IfOp, "if", Push(Quot(e), Push(Quot(t), st)), fuel)
  }

  /** The literal triple, run statement by statement. */
  lemma TripleRun(env: Env, s: seq<Statement>, st: Stack, fuel: nat)
    requires TripleAt(s, 0) && env.literalIf.Loose?
    ensures Exec(env, s, st, fuel) == Continue(env, LooseTriple(env, s[0].body, s[1].body, st, fuel), s[3..], fuel)
  {
    if NonBoolTriple(s, st) {
      hide Word;
    } else {
      BoolTripleRun(env, s, st, fuel);
      hide Word, Exec;
    }
  }

  lemma BoolTripleRun(env: Env, s: seq<Statement>, st: Stack, fuel: nat)
    requires TripleAt(s, 0) && !NonBoolTriple(s, st)
    ensures Exec(env, s, st, fuel) ==
            Continue(env, Word(env, IfOp, "if", Push(Quot(s[1].body), Push(Quot(s[0].body), st)), fuel), s[3..], fuel)
  {
    hide Word, Exec;
    var st1 := Push(Quot(s[0].body), st);
    var st2 := Push(Quot(s[1].body), st1);
    SplitRun(env, s, st, fuel);
    SplitRun(env, s[1..], st1, fuel);
    SplitRun(env, s[1..][1..], st2, fuel);
    assert s[1..][0] == s[1] && s[1..][1..][0] == s[2] && s[1..][1..][1..] == s[3..];
  }

  /** A list whose first statement is known and starts no triple. */
  lemma ConsRun(env: Env, x: Statement, tail: seq<Statement>, st: Stack, fuel: nat)
    requires !TripleAt([x] + tail, 0)
    ensures Exec(env, [x] + tail, st, fuel) == Continue(env, Step(env, x, st, fuel), tail, fuel)
  {
    hide Step;
    assert ([x] + tail)[1..] == tail;
  }

  /** The lowered run is the loose run: no exception, for every body, stack and amount of fuel. */
  lemma {:induction false} ExecAgrees(env: Env, body: seq<Statement>, st: Stack, fuel: nat)
    requires env.literalIf.Loose?
    ensures Agrees(Exec(env, body, st, fuel), Exec(LowerEnv(env), Lower(body), LowerStack(st), fuel))
    decreases fuel, 4 + |body|
  {
    hide Step, Word, LowerStack, LowerStatement, LowerEnv, Exec, LooseTriple, TripleAt;
    NoFrontTriple(body);
    if |body| == 0 {
      EmptyRun(env, st, fuel);
      EmptyRun(LowerEnv(env), LowerStack(st), fuel);
    } else if TripleAt(body, 0) {
      TripleShape(body);
      var x := If(Lower(body[0].body), Else(Lower(body[1].body)), body[2].span);
      TripleRun(env, body, st, fuel);
      TripleAgrees(env, body[0].body, body[1].body, body[2].span, st, fuel);
      ConsRun(LowerEnv(env), x, Lower(body[3..]), LowerStack(st), fuel);
      match LooseTriple(env, body[0].body, body[1].body, st, fuel)
      case Done(st') => ExecAgrees(env, body[3..], st', fuel);
      case _ =>
    } else {
      SplitRun(env, body, st, fuel);
      StepAgrees(env, body[0], st, fuel);
      ConsRun(LowerEnv(env), LowerStatement(body[0]), Lower(body[1..]), LowerStack(st), fuel);
      match Step(env, body[0], st, fuel)
      case Done(st') => ExecAgrees(env, body[1..], st', fuel);
      case _ =>
    }
  }

  lemma TripleShape(body: seq<Statement>)
    requires TripleAt(body, 0)
    ensures |body| >= 3 && body[0].Quotation? && body[1].Quotation? && body[2].WordCall?
  {
  }

  lemma EmptyRun(env: Env, st: Stack, fuel: nat)
    ensures Exec(env, [], st, fuel) == Done(st)
  {
  }

  lemma BoolIf(env: Env, t: seq<Statement>, e: seq<Statement>, c: Value, r: Stack, fuel: nat)
    requires c.Bool?
    ensures Word(env, IfOp, "if", Push(Quot(e), Push(Quot(t), Push(c, r))), fuel)
        == Enter(env, if c.b then t else e, r, fuel)
  {
    hide Enter;
  }

  /** `cond [ t ] [ e ] if` against the lowered conditional statement. */
  lemma {:induction false} TripleAgrees(env: Env, t: seq<Statement>, e: seq<Statement>, span: Option<Span>, st: Stack,
                                        fuel: nat)
    requires env.literalIf.Loose?
    ensures Agrees(LooseTriple(env, t, e, st, fuel),
                   Step(LowerEnv(env), If(Lower(t), Else(Lower(e)), span), LowerStack(st), fuel))
    decreases fuel, 3
  {
    hide Lower, LowerEnv, Enter;
    if st.Push? {
      assert PayloadNonZero(LowerValue(st.top)) == PayloadNonZero(st.top);
      EnterAgrees(env, t, st.rest, fuel);
      EnterAgrees(env, e, st.rest, fuel);
      if st.top.Bool? { BoolIf(env, t, e, st.top, st.rest, fuel); }
    }
  }

  lemma {:induction false} StepAgrees(env: Env, s: Statement, st: Stack, fuel: nat)
    requires env.literalIf.Loose?
    ensures Agrees(Step(env, s, st, fuel), Step(LowerEnv(env), LowerStatement(s), LowerStack(st), fuel))
    decreases fuel, 4
  {
    hide Lower, LowerEnv, Enter, Word, RunArms, OpOf, LowerArms;
    match s
    case WordCall(name, _) => WordAgrees(env, OpOf(name), name, st, fuel);
    case If(t, e, _) =>
      if st.Push? {
        assert PayloadNonZero(LowerValue(st.top)) == PayloadNonZero(st.top);
        EnterAgrees(env, t, st.rest, fuel);
        if e.Else? { EnterAgrees(env, e.body, st.rest, fuel); }
      }
    case Match(arms, _) =>
      if st.Push? && st.top.Tagged? {
        ArmsAgree(env, arms, st.top.tag, st.top.fields, st.rest, fuel);
      }
    case IntLiteral(i) => LowerLiteral(Int(i));
    case FloatLiteral(r) => LowerLiteral(Float(r));
    case BoolLiteral(b) => LowerLiteral(Bool(b));
    case StringLiteral(bytes) => LowerLiteral(Str(bytes));
    case Symbol(name) => LowerLiteral(Sym(name));
    case Quotation(_, body) => LowerLiteral(Quot(body));
  }

  lemma {:induction false} EnterAgrees(env: Env, body: seq<Statement>, st: Stack, fuel: nat)
    requires env.literalIf.Loose?
    ensures Agrees(Enter(env, body, st, fuel), Enter(LowerEnv(env), Lower(body), LowerStack(st), fuel))
    decreases fuel, 0
  {
    hide Exec, Lower, LowerEnv, LowerStack;
    if fuel > 0 { ExecAgrees(env, body, st, fuel - 1); }
  }

  lemma {:induction false} InvokeAgrees(env: Env, v: Value, st: Stack, fuel: nat)
    requires env.literalIf.Loose?
    ensures Agrees(Invoke(env, v, st, fuel), Invoke(LowerEnv(env), LowerValue(v), LowerStack(st), fuel))
    decreases fuel, 1
  {
    hide Enter, Lower, LowerEnv, LowerStack;
    if v.Quot? { EnterAgrees(env, v.body, st, fuel); }
  }

  lemma {:induction false} WordAgrees(env: Env, op: Op, name: string, st: Stack, fuel: nat)
    requires env.literalIf.Loose?
    ensures Agrees(Word(env, op, name, st, fuel), Word(LowerEnv(env), op, name, LowerStack(st), fuel))
    decreases fuel, 3
  {
    hide Invoke, Enter, Shuffle, RunPrim, Lower, LowerStack;
    LowerPushes();
    LowerTop(st);
    if st.Push? {
      LowerTop(st.rest);
      if st.rest.Push? { LowerTop(st.rest.rest); }
    }
    match op
    case Call =>
      if st.Push? { InvokeAgrees(env, st.top, st.rest, fuel); }
    case Dip =>
      if st.Push? && st.rest.Push? { InvokeAgrees(env, st.top, st.rest.rest, fuel); }
    case Keep =>
      if st.Push? && st.rest.Push? { InvokeAgrees(env, st.top, st.rest, fuel); }
    case Bi =>
      if st.Push? && st.rest.Push? && st.rest.rest.Push? {
        InvokeAgrees(env, st.rest.top, st.rest.rest, fuel);
        match Under(Invoke(env, st.rest.top, st.rest.rest, fuel), st.rest.rest.top)
        case Done(st') => InvokeAgrees(env, st.top, st', fuel);
        case _ =>
      }
    case IfOp =>
      if st.Push? && st.rest.Push? && st.rest.rest.Push? && st.rest.rest.top.Bool? {
        LowerLiteral(st.rest.rest.top);
        InvokeAgrees(env, if st.rest.rest.top.b then st.rest.top else st.top, st.rest.rest.rest, fuel);
      }
    case NotBuiltin =>
      if name in env.prims {
        LowerPrim(env.prims[name], st);
      } else if name in env.words {
        EnterAgrees(env, env.words[name], st, fuel);
      }
    case MakeVariant(n) => LowerMake(n, st);
    case _ => LowerMoves(op, st);
  }

  lemma {:induction false} ArmsAgree(env: Env, arms: seq<MatchArm>, tag: string, fields: Stack, st: Stack, fuel: nat)
    requires env.literalIf.Loose?
    ensures Agrees(RunArms(env, arms, tag, fields, st, fuel),
                   RunArms(LowerEnv(env), LowerArms(arms), tag, LowerStack(fields), LowerStack(st), fuel))
    decreases fuel, 2, |arms|
  {
    hide Enter, Unpack, Lower, LowerEnv, LowerStack;
    if |arms| > 0 {
      assert LowerArms(arms)[0] == LowerArm(arms[0]) && LowerArms(arms)[1..] == LowerArms(arms[1..]);
      if arms[0].pattern.name == tag {
        LowerUnpack(env, arms[0].pattern, fields, st);
        match Unpack(env, arms[0].pattern, fields, st)
        case None =>
        case Some(st') => EnterAgrees(env, arms[0].body, st', fuel);
      } else {
        ArmsAgree(env, arms[1..], tag, fields, st, fuel);
      }
    }
  }

  // ---- Whole programs ----

  /** The bodies that calls run: the last definition of each name. */
  function Table(words: seq<WordDef>): map<string, seq<Statement>>
    decreases |words|
  {
    if |words| == 0 then map[]
    else Table(words[..|words| - 1])[words[|words| - 1].name := words[|words| - 1].body]
  }

  /** The runtime running a program. */
  function Running(p: Program, prims: map<string, Prim>, fieldNames: map<string, seq<string>>): Env {
    Env(Table(p.words), prims, fieldNames, Strict)
  }

  lemma {:induction false} TableLowered(p: Program, prims: map<string, Prim>, fieldNames: map<string, seq<string>>)
    ensures Running(LowerProgram(p), prims, fieldNames) == LowerEnv(Running(p, prims, fieldNames))
    decreases |p.words|
  {
    hide Lower;
    if |p.words| > 0 {
      var q := Program(p.words[..|p.words| - 1]);
      TableLowered(q, prims, fieldNames);
      assert LowerProgram(p).words[..|p.words| - 1] == LowerProgram(q).words;
    }
  }

  /** What a lowered program does, without exception: what the original does when its literal
      triples test the payload bits of a condition that is no Bool. */
  lemma LoweredIsLoose(p: Program, prims: map<string, Prim>, fieldNames: map<string, seq<string>>,
                       body: seq<Statement>, st: Stack, fuel: nat)
    ensures var loose := Exec(Loosened(Running(p, prims, fieldNames)), body, st, fuel);
            var lowered := Exec(Running(LowerProgram(p), prims, fieldNames), Lower(body), LowerStack(st), fuel);
            lowered == LowerOutcome(loose)
  {
    hide Exec, Lower, LowerStack, Table;
    TableLowered(p, prims, fieldNames);
    ExecAgrees(Loosened(Running(p, prims, fieldNames)), body, st, fuel);
  }

  /** The main result, for every program, start stack and amount of fuel, told in what the runtime
      reports: the two runs end alike exactly when the original does not stop at a literal triple
      on a condition that is no Bool, or it does and, going on from there, the run of the loose
      reading stops at some other `if` for the same reason. */
  lemma LoweringAgrees(p: Program, prims: map<string, Prim>, fieldNames: map<string, seq<string>>,
                       body: seq<Statement>, st: Stack, fuel: nat)
    ensures var original := Exec(Running(p, prims, fieldNames), body, st, fuel);
            var loose := Exec(Loosened(Running(p, prims, fieldNames)), body, st, fuel);
            var lowered := Exec(Running(LowerProgram(p), prims, fieldNames), Lower(body), LowerStack(st), fuel);
            && (Unlabelled(lowered) == LowerOutcome(Unlabelled(original)) <==>
                  original != Failed(LiteralCondNotBool) || loose == Failed(CondNotBool))
            && (original != Failed(LiteralCondNotBool) ==> lowered == LowerOutcome(original))
  {
    hide Exec, Lower, LowerStack, Table;
    LoweredIsLoose(p, prims, fieldNames, body, st, fuel);
    LooseExec(Running(p, prims, fieldNames), body, st, fuel);
  }

  /** So one ends, fails or runs out exactly when the other does. */
  lemma RunsCorrespond(p: Program, prims: map<string, Prim>, fieldNames: map<string, seq<string>>,
                       body: seq<Statement>, st: Stack, fuel: nat)
    ensures var original := Exec(Running(p, prims, fieldNames), body, st, fuel);
            var lowered := Exec(Running(LowerProgram(p), prims, fieldNames), Lower(body), LowerStack(st), fuel);
            && lowered != Failed(LiteralCondNotBool)
            && (original != Failed(LiteralCondNotBool) ==>
                  && (original.Done? <==> lowered.Done?)
                  && (original.Done? ==> lowered.stack == LowerStack(original.stack))
                  && (forall f :: original == Failed(f) <==> lowered == Failed(f))
                  && (original == OutOfFuel <==> lowered == OutOfFuel))
  {
    hide Exec, Lower, LowerStack, Table;
    LoweringAgrees(p, prims, fieldNames, body, st, fuel);
    LoweredIsLoose(p, prims, fieldNames, body, st, fuel);
    LooseExec(Running(p, prims, fieldNames), body, st, fuel);
  }

  /** The combinator on two literal quotations and the conditional statement run the same
      branch (`t` or `e`), each in its own program. */
  ghost predicate SameBranch(env: Env, t: seq<Statement>, e: seq<Statement>, span: Option<Span>, c: Value, r: Stack,
                             fuel: nat) {
    exists branch ::
      && (branch == t || branch == e)
      && Word(env, IfOp, "if", Push(Quot(e), Push(Quot(t), Push(c, r))), fuel) == Enter(env, branch, r, fuel)
      && Step(LowerEnv(env), If(Lower(t), Else(Lower(e)), span), LowerStack(Push(c, r)), fuel)
         == Enter(LowerEnv(env), Lower(branch), LowerStack(r), fuel)
  }

  /** Exactly which conditions a literal triple is lowered faithfully on: the Bools. On any other
      condition the combinator stops the program, while the conditional statement goes on. */
  lemma TripleFaithfulIffBool(env: Env, c: Value)
    ensures c.Bool? <==> forall t, e, span, r, fuel :: SameBranch(env, t, e, span, c, r, fuel)
  {
    hide Lower, LowerEnv;
    if c.Bool? {
      forall t, e, span, r, fuel: nat ensures SameBranch(env, t, e, span, c, r, fuel) {
        hide Enter, LowerStack;
        LowerPushes();
        LowerLiteral(c);
        var branch := if c.b then t else e;
        BoolIf(env, t, e, c, r, fuel);
        assert PayloadNonZero(LowerValue(c)) == c.b;
        assert Step(LowerEnv(env), If(Lower(t), Else(Lower(e)), span), LowerStack(Push(c, r)), fuel)
               == Enter(LowerEnv(env), Lower(branch), LowerStack(r), fuel);
      }
    } else {
      assert !SameBranch(env, [], [], None, c, Empty, 1);
    }
  }

  /** A program that stops before lowering and ends after it: `1 [ ] [ ] if`. */
  lemma NonBoolCounterexample()
    ensures var env := Env(map[], map[], map[], Strict);
            var body := [IntLiteral(1), Quotation(0, []), Quotation(1, []), WordCall("if", None)];
            && Exec(env, body, Empty, 1) == Failed(LiteralCondNotBool)
            && Exec(LowerEnv(env), Lower(body), Empty, 1) == Done(Empty)
  {
    hide LowerEnv;
    var env := Env(map[], map[], map[], Strict);
    var triple := [Quotation(0, []), Quotation(1, []), WordCall("if", None)];
    var body := [IntLiteral(1)] + triple;
    assert body == [IntLiteral(1), Quotation(0, []), Quotation(1, []), WordCall("if", None)];
    ConsRun(env, IntLiteral(1), triple, Empty, 1);
    StrictTriple(env, triple, Push(Int(1), Empty), 1);
    var lowered := If([], Else([]), None);
    assert body[1..] == triple && triple[3..] == [];
    assert Lower([]) == [];
    assert Lower(triple) == [lowered] + [];
    assert Lower(body) == [IntLiteral(1)] + Lower(triple);
    ConsRun(LowerEnv(env), IntLiteral(1), Lower(triple), Empty, 1);
    ConsRun(LowerEnv(env), lowered, [], Push(Int(1), Empty), 1);
  }

  /** The two faults can meet: `1 [ 2 [ ] dup if ] [ ] if` stops at the literal triple before
      lowering and at the inner `if`, which ends none, after it; the runtime reports the same. */
  lemma StopsAlikeExample()
    ensures var env := Env(map[], map[], map[], Strict);
            var inner := [IntLiteral(2), Quotation(2, []), WordCall("dup", None), WordCall("if", None)];
            var body := [IntLiteral(1), Quotation(0, inner), Quotation(1, []), WordCall("if", None)];
            && Exec(env, body, Empty, 2) == Failed(LiteralCondNotBool)
            && Exec(LowerEnv(env), Lower(body), Empty, 2) == Failed(CondNotBool)
  {
    hide LowerEnv;
    var env := Env(map[], map[], map[], Strict);
    var inner := [IntLiteral(2), Quotation(2, []), WordCall("dup", None), WordCall("if", None)];
    var triple := [Quotation(0, inner), Quotation(1, []), WordCall("if", None)];
    var body := [IntLiteral(1)] + triple;
    assert body == [IntLiteral(1), Quotation(0, inner), Quotation(1, []), WordCall("if", None)];
    ConsRun(env, IntLiteral(1), triple, Empty, 2);
    StrictTriple(env, triple, Push(Int(1), Empty), 2);
    var lowered := If(inner, Else([]), None);
    InnerIsNormal(inner);
    assert body[1..] == triple && triple[3..] == [];
    assert Lower([]) == [];
    assert Lower(triple) == [lowered] + [];
    assert Lower(body) == [IntLiteral(1)] + Lower(triple);
    ConsRun(LowerEnv(env), IntLiteral(1), Lower(triple), Empty, 2);
    ConsRun(LowerEnv(env), lowered, [], Push(Int(1), Empty), 2);
    InnerStops(LowerEnv(env), inner, 1);
  }

  lemma InnerIsNormal(inner: seq<Statement>)
    requires inner == [IntLiteral(2), Quotation(2, []), WordCall("dup", None), WordCall("if", None)]
    ensures Lower(inner) == inner
  {
    assert Lower([]) == [];
    assert inner[3..] == [WordCall("if", None)] && inner[3..][1..] == [];
    assert Lower(inner[3..]) == [WordCall("if", None)];
    assert inner[2..] == [WordCall("dup", None), WordCall("if", None)] && inner[2..][1..] == inner[3..];
    assert Lower(inner[2..]) == inner[2..];
    assert inner[1..][1..] == inner[2..];
    assert Lower(inner[1..]) == inner[1..];
  }

  lemma InnerStops(env: Env, inner: seq<Statement>, fuel: nat)
    requires inner == [IntLiteral(2), Quotation(2, []), WordCall("dup", None), WordCall("if", None)]
    ensures Exec(env, inner, Empty, fuel) == Failed(CondNotBool)
  {
    hide Word, Exec;
    var st1 := Push(Int(2), Empty);
    var st2 := Push(Quot([]), st1);
    var st3 := Push(Quot([]), st2);
    SplitRun(env, inner, Empty, fuel);
    SplitRun(env, inner[1..], st1, fuel);
    assert inner[1..][1..] == inner[2..] && inner[2..][1..] == inner[3..];
    SplitRun(env, inner[2..], st2, fuel);
    assert Word(env, Dup, "dup", st2, fuel) == Done(st3) by { DupRuns(env, st2, fuel); }
    SplitRun(env, inner[3..], st3, fuel);
    NonBoolStops(env, st3, fuel);
  }

  lemma DupRuns(env: Env, st: Stack, fuel: nat)
    requires st.Push?
    ensures Word(env, Dup, "dup", st, fuel) == Done(Push(st.top, st))
  {
  }
}
