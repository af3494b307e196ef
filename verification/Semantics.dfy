/** A big-step meaning for statement lists: what the generated code and the
    runtime do to the value stack. Words are looked up as the code generator
    does: builtins first, then the user's words. */
module Semantics {
  import opened Ast
  import opened Normalize
  import opened Wrappers

  /** Quotations are values; a variant's fields are held first to last. */
  datatype Value =
    | Int(i: int)
    | Float(r: real)
    | Bool(b: bool)
    | Str(bytes: seq<bv8>)
    | Sym(name: string)
    | Quot(body: seq<Statement>)
    | Tagged(tag: string, fields: Stack)

  /** Top first. */
  datatype Stack = Empty | Push(top: Value, rest: Stack)

  /** LiteralCondNotBool is CondNotBool at a literal `[ .. ] [ .. ] if`; the label is for the reader
      of a run, the runtime stops alike at both. */
  datatype Fault =
    | Underflow | CondNotBool | LiteralCondNotBool | NotCallable | NotAVariant | NoMatchingArm | BadFields | NotASymbol
    | UnknownWord | PrimFault

  datatype Outcome = Done(stack: Stack) | Failed(fault: Fault) | OutOfFuel

  datatype Op =
    | Dup | Drop | Swap | Over | Rot | Nip | Tuck | TwoDup
    | Call | Dip | Keep | Bi | IfOp
    | MakeVariant(arity: nat)
    | NotBuiltin

  /** Every other builtin works on data without quotations; it is a parameter. */
  datatype Prim = Prim(arity: nat, apply: Stack -> Option<Stack>)

  /** What a literal `[ .. ] [ .. ] if` does on a condition that is no Bool. Strict is the runtime:
      it stops. Loose is another reading of the same program: it tests the payload bits. */
  datatype Rule = Strict | Loose

  /** `fieldNames` gives the declared fields of each union variant. */
  datatype Env = Env(
    words: map<string, seq<Statement>>, prims: map<string, Prim>, fieldNames: map<string, seq<string>>, literalIf: Rule)

  function OpOf(name: string): Op {
    if name == "if" then IfOp
    else if name == "call" then Call
    else if name == "dip" then Dip
    else if name == "keep" then Keep
    else if name == "bi" then Bi
    else if name == "dup" then Dup
    else if name == "drop" then Drop
    else if name == "swap" then Swap
    else if name == "over" then Over
    else if name == "rot" then Rot
    else if name == "nip" then Nip
    else if name == "tuck" then Tuck
    else if name == "2dup" then TwoDup
    else if name == "variant.make-0" then MakeVariant(0)
    else if name == "variant.make-1" then MakeVariant(1)
    else if name == "variant.make-2" then MakeVariant(2)
    else if name == "variant.make-3" then MakeVariant(3)
    else if name == "variant.make-4" then MakeVariant(4)
    else NotBuiltin
  }

  /** No quotation anywhere inside. */
  predicate Ground(v: Value) {
    match v
    case Quot(_) => false
    case Tagged(_, fields) => GroundStack(fields)
    case _ => true
  }

  predicate GroundStack(st: Stack) {
    match st
    case Empty => true
    case Push(v, rest) => Ground(v) && GroundStack(rest)
  }

  function Append(a: Stack, b: Stack): Stack {
    match a
    case Empty => b
    case Push(v, rest) => Push(v, Append(rest, b))
  }

  /** The top n values and what lies under them. */
  function Take(st: Stack, n: nat): Option<(Stack, Stack)> {
    if n == 0 then Some((Empty, st))
    else
      match st
      case Empty => None
      case Push(v, rest) =>
        match Take(rest, n - 1)
        case None => None
        case Some((front, back)) => Some((Push(v, front), back))
  }

  /** Pushes the values of `vs` in order, so that the last ends on top. */
  function PushAll(vs: Stack, st: Stack): Stack
    decreases vs
  {
    match vs
    case Empty => st
    case Push(v, rest) => PushAll(rest, Push(v, st))
  }

  function Shuffle(op: Op, st: Stack): Outcome {
    match op
    case Dup => (match st case Push(a, r) => Done(Push(a, Push(a, r))) case _ => Failed(Underflow))
    case Drop => (match st case Push(a, r) => Done(r) case _ => Failed(Underflow))
    case Swap => (match st case Push(b, Push(a, r)) => Done(Push(a, Push(b, r))) case _ => Failed(Underflow))
    case Over => (match st case Push(b, Push(a, r)) => Done(Push(a, Push(b, Push(a, r)))) case _ => Failed(Underflow))
    case Rot =>
      (match st case Push(c, Push(b, Push(a, r))) => Done(Push(a, Push(c, Push(b, r)))) case _ => Failed(Underflow))
    case Nip => (match st case Push(b, Push(a, r)) => Done(Push(b, r)) case _ => Failed(Underflow))
    case Tuck => (match st case Push(b, Push(a, r)) => Done(Push(b, Push(a, Push(b, r)))) case _ => Failed(Underflow))
    case TwoDup =>
      (match st case Push(b, Push(a, r)) => Done(Push(b, Push(a, Push(b, Push(a, r))))) case _ => Failed(Underflow))
    case MakeVariant(n) =>
      (match st
       case Push(Sym(tag), r) =>
         (match Take(r, n)
          case Some((fields, back)) => Done(Push(Tagged(tag, PushAll(fields, Empty)), back))
          case None => Failed(Underflow))
       case Push(_, _) => Failed(NotASymbol)
       case Empty => Failed(Underflow))
    case _ => Failed(UnknownWord)
  }

  function RunPrim(p: Prim, st: Stack): Outcome {
    match Take(st, p.arity)
    case None => Failed(Underflow)
    case Some((args, back)) =>
      if !GroundStack(args) then Failed(PrimFault)
      else
        match p.apply(args)
        case None => Failed(PrimFault)
        case Some(results) => if GroundStack(results) then Done(Append(results, back)) else Failed(PrimFault)
  }

  /** The branch test of a conditional statement looks at the payload bits of the
      slot: false and the integer 0 are zero, everything else is not. */
  predicate PayloadNonZero(v: Value) {
    match v
    case Bool(b) => b
    case Int(i) => i != 0
    case _ => true
  }

  // ---- Running ----

  function Exec(env: Env, body: seq<Statement>, st: Stack, fuel: nat): Outcome
    decreases fuel, 4 + |body|
  {
    if |body| == 0 then Done(st)
    else if NonBoolTriple(body, st) then
      if env.literalIf.Strict? then Failed(LiteralCondNotBool)
      else
        match Enter(env, LooseBranch(body, st), st.rest, fuel)
        case Done(st') => Exec(env, body[3..], st', fuel)
        case o => o
    else
      match Step(env, body[0], st, fuel)
      case Done(st') => Exec(env, body[1..], st', fuel)
      case o => o
  }

  /** A literal `[ .. ] [ .. ] if` is next, and its condition is no Bool. */
  predicate NonBoolTriple(body: seq<Statement>, st: Stack) {
    TripleAt(body, 0) && st.Push? && !st.top.Bool?
  }

  function LooseBranch(body: seq<Statement>, st: Stack): seq<Statement>
    requires NonBoolTriple(body, st)
  {
    if PayloadNonZero(st.top) then body[0].body else body[1].body
  }

  function Step(env: Env, s: Statement, st: Stack, fuel: nat): Outcome
    decreases fuel, 4
  {
    match s
    case IntLiteral(i) => Done(Push(Int(i), st))
    case FloatLiteral(r) => Done(Push(Float(r), st))
    case BoolLiteral(b) => Done(Push(Bool(b), st))
    case StringLiteral(bytes) => Done(Push(Str(bytes), st))
    case Symbol(name) => Done(Push(Sym(name), st))
    case Quotation(_, body) => Done(Push(Quot(body), st))
    case WordCall(name, _) => Word(env, OpOf(name), name, st, fuel)
    case If(t, e, _) =>
      (match st
       case Empty => Failed(Underflow)
       case Push(c, rest) =>
         if PayloadNonZero(c) then Enter(env, t, rest, fuel)
         else (match e case NoElse => Done(rest) case Else(b) => Enter(env, b, rest, fuel)))
    case Match(arms, _) =>
      (match st
       case Empty => Failed(Underflow)
       case Push(Tagged(tag, fields), rest) => RunArms(env, arms, tag, fields, rest, fuel)
       case Push(_, _) => Failed(NotAVariant))
  }

  /** Running a block costs one unit of fuel: a word, an invoked quotation, a branch or an arm. */
  function Enter(env: Env, body: seq<Statement>, st: Stack, fuel: nat): Outcome
    decreases fuel, 0
  {
    if fuel == 0 then OutOfFuel else Exec(env, body, st, fuel - 1)
  }

  function Invoke(env: Env, v: Value, st: Stack, fuel: nat): Outcome
    decreases fuel, 1
  {
    if v.Quot? then Enter(env, v.body, st, fuel) else Failed(NotCallable)
  }

  function Under(o: Outcome, x: Value): Outcome {
    match o
    case Done(st) => Done(Push(x, st))
    case _ => o
  }

  function Word(env: Env, op: Op, name: string, st: Stack, fuel: nat): Outcome
    decreases fuel, 3
  {
    match op
    case Call => (match st case Push(q, r) => Invoke(env, q, r, fuel) case _ => Failed(Underflow))
    case Dip => (match st case Push(q, Push(x, r)) => Under(Invoke(env, q, r, fuel), x) case _ => Failed(Underflow))
    case Keep =>
      (match st case Push(q, Push(x, r)) => Under(Invoke(env, q, Push(x, r), fuel), x) case _ => Failed(Underflow))
    case Bi =>
      (match st
       case Push(q2, Push(q1, Push(x, r))) =>
         (match Under(Invoke(env, q1, Push(x, r), fuel), x)
          case Done(st') => Invoke(env, q2, st', fuel)
          case o => o)
       case _ => Failed(Underflow))
    case IfOp =>
      (match st
       case Push(e, Push(t, Push(c, r))) =>
         if !c.Bool? then Failed(CondNotBool) else Invoke(env, if c.b then t else e, r, fuel)
       case _ => Failed(Underflow))
    case NotBuiltin =>
      if name in env.prims then RunPrim(env.prims[name], st)
      else if name in env.words then Enter(env, env.words[name], st, fuel)
      else Failed(UnknownWord)
    case _ => Shuffle(op, st)
  }

  /** The arms are tried in order; the fields that the pattern asks for are pushed. */
  function RunArms(env: Env, arms: seq<MatchArm>, tag: string, fields: Stack, st: Stack, fuel: nat): Outcome
    decreases fuel, 2, |arms|
  {
    if |arms| == 0 then Failed(NoMatchingArm)
    else if arms[0].pattern.name == tag then
      match Unpack(env, arms[0].pattern, fields, st)
      case None => Failed(BadFields)
      case Some(st') => Enter(env, arms[0].body, st', fuel)
    else RunArms(env, arms[1..], tag, fields, st, fuel)
  }

  function Unpack(env: Env, p: Pattern, fields: Stack, st: Stack): Option<Stack> {
    if p.name !in env.fieldNames then None
    else
      match p
      case Variant(name) =>
        (match Take(fields, |env.fieldNames[name]|)
         case None => None
         case Some((front, _)) => Some(PushAll(front, st)))
      case VariantWithBindings(name, bindings) => PushBindings(bindings, env.fieldNames[name], fields, st)
  }

  function PushBindings(bindings: seq<string>, names: seq<string>, fields: Stack, st: Stack): Option<Stack>
    decreases |bindings|
  {
    if |bindings| == 0 then Some(st)
    else
      match FieldNamed(bindings[0], names, fields)
      case None => None
      case Some(v) => PushBindings(bindings[1..], names, fields, Push(v, st))
  }

  function FieldNamed(b: string, names: seq<string>, fields: Stack): Option<Value>
    decreases |names|
  {
    if |names| == 0 then None
    else
      match fields
      case Empty => None
      case Push(v, rest) => if names[0] == b then Some(v) else FieldNamed(b, names[1..], rest)
  }

  // ---- More fuel never changes a finished run ----

  lemma {:induction false} MoreFuel(env: Env, body: seq<Statement>, st: Stack, fuel: nat)
    requires Exec(env, body, st, fuel) != OutOfFuel
    ensures Exec(env, body, st, fuel + 1) == Exec(env, body, st, fuel)
    decreases fuel, 4 + |body|
  {
    if |body| > 0 && NonBoolTriple(body, st) {
      if env.literalIf.Loose? {
        MoreFuelEnter(env, LooseBranch(body, st), st.rest, fuel);
        match Enter(env, LooseBranch(body, st), st.rest, fuel)
        case Done(st') => MoreFuel(env, body[3..], st', fuel);
        case _ =>
      }
    } else if |body| > 0 {
      MoreFuelStep(env, body[0], st, fuel);
      match Step(env, body[0], st, fuel)
      case Done(st') => MoreFuel(env, body[1..], st', fuel);
      case _ =>
    }
  }

  lemma {:induction false} MoreFuelStep(env: Env, s: Statement, st: Stack, fuel: nat)
    requires Step(env, s, st, fuel) != OutOfFuel
    ensures Step(env, s, st, fuel + 1) == Step(env, s, st, fuel)
    decreases fuel, 4
  {
    hide OpOf, Exec;
    match s
    case WordCall(name, _) => MoreFuelWord(env, OpOf(name), name, st, fuel);
    case If(t, e, _) =>
      if st.Push? {
        if PayloadNonZero(st.top) {
          MoreFuelEnter(env, t, st.rest, fuel);
        } else if e.Else? {
          MoreFuelEnter(env, e.body, st.rest, fuel);
        }
      }
    case Match(arms, _) =>
      if st.Push? && st.top.Tagged? {
        MoreFuelArms(env, arms, st.top.tag, st.top.fields, st.rest, fuel);
      }
    case _ =>
  }

  lemma {:induction false} MoreFuelEnter(env: Env, body: seq<Statement>, st: Stack, fuel: nat)
    requires Enter(env, body, st, fuel) != OutOfFuel
    ensures Enter(env, body, st, fuel + 1) == Enter(env, body, st, fuel)
    decreases fuel, 0
  {
    MoreFuel(env, body, st, fuel - 1);
  }

  lemma {:induction false} MoreFuelInvoke(env: Env, v: Value, st: Stack, fuel: nat)
    requires Invoke(env, v, st, fuel) != OutOfFuel
    ensures Invoke(env, v, st, fuel + 1) == Invoke(env, v, st, fuel)
    decreases fuel, 1
  {
    hide Enter;
    if v.Quot? { MoreFuelEnter(env, v.body, st, fuel); }
  }

  lemma {:induction false} MoreFuelWord(env: Env, op: Op, name: string, st: Stack, fuel: nat)
    requires Word(env, op, name, st, fuel) != OutOfFuel
    ensures Word(env, op, name, st, fuel + 1) == Word(env, op, name, st, fuel)
    decreases fuel, 3
  {
    hide Invoke, Enter, Shuffle, RunPrim;
    match op
    case Call =>
      if st.Push? { MoreFuelInvoke(env, st.top, st.rest, fuel); }
    case Dip =>
      if st.Push? && st.rest.Push? { MoreFuelInvoke(env, st.top, st.rest.rest, fuel); }
    case Keep =>
      if st.Push? && st.rest.Push? { MoreFuelInvoke(env, st.top, st.rest, fuel); }
    case Bi =>
      if st.Push? && st.rest.Push? && st.rest.rest.Push? {
        var x := st.rest.rest.top;
        MoreFuelInvoke(env, st.rest.top, st.rest.rest, fuel);
        match Under(Invoke(env, st.rest.top, st.rest.rest, fuel), x)
        case Done(st') => MoreFuelInvoke(env, st.top, st', fuel);
        case _ =>
      }
    case IfOp =>
      if st.Push? && st.rest.Push? && st.rest.rest.Push? && st.rest.rest.top.Bool? {
        MoreFuelInvoke(env, if st.rest.rest.top.b then st.rest.top else st.top, st.rest.rest.rest, fuel);
      }
    case NotBuiltin =>
      if name !in env.prims && name in env.words { MoreFuelEnter(env, env.words[name], st, fuel); }
    case _ =>
  }

  lemma {:induction false} MoreFuelArms(env: Env, arms: seq<MatchArm>, tag: string, fields: Stack, st: Stack, fuel: nat)
    requires RunArms(env, arms, tag, fields, st, fuel) != OutOfFuel
    ensures RunArms(env, arms, tag, fields, st, fuel + 1) == RunArms(env, arms, tag, fields, st, fuel)
    decreases fuel, 2, |arms|
  {
    hide Enter, Unpack;
    if |arms| > 0 {
      if arms[0].pattern.name == tag {
        match Unpack(env, arms[0].pattern, fields, st)
        case None =>
        case Some(st') => MoreFuelEnter(env, arms[0].body, st', fuel);
      } else {
        MoreFuelArms(env, arms[1..], tag, fields, st, fuel);
      }
    }
  }

  // ---- The label is only a name ----

  /** What the runtime reports. */
  function Unlabelled(o: Outcome): Outcome {
    if o == Failed(LiteralCondNotBool) then Failed(CondNotBool) else o
  }

  /** What follows a finished statement. */
  function Continue(env: Env, o: Outcome, rest: seq<Statement>, fuel: nat): Outcome {
    if o.Done? then Exec(env, rest, o.stack, fuel) else o
  }

  lemma SplitRun(env: Env, body: seq<Statement>, st: Stack, fuel: nat)
    requires |body| > 0 && !NonBoolTriple(body, st)
    ensures Exec(env, body, st, fuel) == Continue(env, Step(env, body[0], st, fuel), body[1..], fuel)
  {
    hide Step;
  }

  /** Apart from the label a strict run is its statements one after the other. */
  lemma StrictIsStepwise(env: Env, body: seq<Statement>, st: Stack, fuel: nat)
    requires |body| > 0 && env.literalIf.Strict?
    ensures Unlabelled(Exec(env, body, st, fuel))
         == Unlabelled(Continue(env, Step(env, body[0], st, fuel), body[1..], fuel))
  {
    hide Word, Exec;
    if NonBoolTriple(body, st) {
      StrictTriple(env, body, st, fuel);
      var st1 := Push(Quot(body[0].body), st);
      var st2 := Push(Quot(body[1].body), st1);
      SplitRun(env, body[1..], st1, fuel);
      SplitRun(env, body[1..][1..], st2, fuel);
      assert body[1..][0] == body[1] && body[1..][1..][0] == body[2];
      assert Word(env, IfOp, "if", st2, fuel) == Failed(CondNotBool) by { NonBoolStops(env, st2, fuel); }
    } else {
      SplitRun(env, body, st, fuel);
    }
  }

  lemma StrictTriple(env: Env, body: seq<Statement>, st: Stack, fuel: nat)
    requires |body| > 0 && env.literalIf.Strict? && NonBoolTriple(body, st)
    ensures Exec(env, body, st, fuel) == Failed(LiteralCondNotBool)
  {
  }

  lemma NonBoolStops(env: Env, st: Stack, fuel: nat)
    requires st.Push? && st.rest.Push? && st.rest.rest.Push? && !st.rest.rest.top.Bool?
    ensures Word(env, IfOp, "if", st, fuel) == Failed(CondNotBool)
  {
  }

  // ---- Strict and loose runs ----

  /** A loose run is never labelled, and it is the strict run unless that one is. */
  predicate LooseOf(strict: Outcome, loose: Outcome) {
    loose != Failed(LiteralCondNotBool) && (strict == Failed(LiteralCondNotBool) || strict == loose)
  }

  function Loosened(env: Env): Env {
    env.(literalIf := Loose)
  }

  lemma {:induction false} LooseExec(env: Env, body: seq<Statement>, st: Stack, fuel: nat)
    requires env.literalIf.Strict?
    ensures LooseOf(Exec(env, body, st, fuel), Exec(Loosened(env), body, st, fuel))
    decreases fuel, 4 + |body|
  {
    hide Step;
    if |body| > 0 {
      if NonBoolTriple(body, st) {
        LooseEnter(env, LooseBranch(body, st), st.rest, fuel);
        match Enter(Loosened(env), LooseBranch(body, st), st.rest, fuel)
        case Done(st') => LooseExec(env, body[3..], st', fuel);
        case _ =>
      } else {
        LooseStep(env, body[0], st, fuel);
        match Step(env, body[0], st, fuel)
        case Done(st') => LooseExec(env, body[1..], st', fuel);
        case _ =>
          match Step(Loosened(env), body[0], st, fuel)
          case Done(st') => LooseExec(env, body[1..], st', fuel);
          case _ =>
      }
    }
  }

  lemma {:induction false} LooseStep(env: Env, s: Statement, st: Stack, fuel: nat)
    requires env.literalIf.Strict?
    ensures LooseOf(Step(env, s, st, fuel), Step(Loosened(env), s, st, fuel))
    decreases fuel, 4
  {
    hide OpOf, Exec, Enter, Word, RunArms;
    match s
    case WordCall(name, _) => LooseWord(env, OpOf(name), name, st, fuel);
    case If(t, e, _) =>
      if st.Push? {
        LooseEnter(env, t, st.rest, fuel);
        if e.Else? { LooseEnter(env, e.body, st.rest, fuel); }
      }
    case Match(arms, _) =>
      if st.Push? && st.top.Tagged? { LooseArms(env, arms, st.top.tag, st.top.fields, st.rest, fuel); }
    case _ =>
  }

  lemma {:induction false} LooseEnter(env: Env, body: seq<Statement>, st: Stack, fuel: nat)
    requires env.literalIf.Strict?
    ensures LooseOf(Enter(env, body, st, fuel), Enter(Loosened(env), body, st, fuel))
    decreases fuel, 0
  {
    hide Exec;
    if fuel > 0 { LooseExec(env, body, st, fuel - 1); }
  }

  lemma {:induction false} LooseInvoke(env: Env, v: Value, st: Stack, fuel: nat)
    requires env.literalIf.Strict?
    ensures LooseOf(Invoke(env, v, st, fuel), Invoke(Loosened(env), v, st, fuel))
    decreases fuel, 1
  {
    hide Enter;
    if v.Quot? { LooseEnter(env, v.body, st, fuel); }
  }

  lemma {:induction false} LooseWord(env: Env, op: Op, name: string, st: Stack, fuel: nat)
    requires env.literalIf.Strict?
    ensures LooseOf(Word(env, op, name, st, fuel), Word(Loosened(env), op, name, st, fuel))
    decreases fuel, 3
  {
    hide Invoke, Enter, Shuffle, RunPrim;
    var env' := Loosened(env);
    match op
    case Call =>
      if st.Push? { LooseInvoke(env, st.top, st.rest, fuel); }
    case Dip =>
      if st.Push? && st.rest.Push? { LooseInvoke(env, st.top, st.rest.rest, fuel); }
    case Keep =>
      if st.Push? && st.rest.Push? { LooseInvoke(env, st.top, st.rest, fuel); }
    case Bi =>
      if st.Push? && st.rest.Push? && st.rest.rest.Push? {
        LooseInvoke(env, st.rest.top, st.rest.rest, fuel);
        match Under(Invoke(env', st.rest.top, st.rest.rest, fuel), st.rest.rest.top)
        case Done(st') => LooseInvoke(env, st.top, st', fuel);
        case _ =>
      }
    case IfOp =>
      if st.Push? && st.rest.Push? && st.rest.rest.Push? && st.rest.rest.top.Bool? {
        LooseInvoke(env, if st.rest.rest.top.b then st.rest.top else st.top, st.rest.rest.rest, fuel);
      }
    case NotBuiltin =>
      if name in env.prims { PrimUnlabelled(env.prims[name], st); }
      else if name in env.words { LooseEnter(env, env.words[name], st, fuel); }
    case _ => ShuffleUnlabelled(op, st);
  }

  lemma PrimUnlabelled(p: Prim, st: Stack)
    ensures RunPrim(p, st) != Failed(LiteralCondNotBool)
  {
  }

  lemma ShuffleUnlabelled(op: Op, st: Stack)
    ensures Shuffle(op, st) != Failed(LiteralCondNotBool)
  {
  }

  lemma {:induction false} LooseArms(env: Env, arms: seq<MatchArm>, tag: string, fields: Stack, st: Stack, fuel: nat)
    requires env.literalIf.Strict?
    ensures LooseOf(RunArms(env, arms, tag, fields, st, fuel), RunArms(Loosened(env), arms, tag, fields, st, fuel))
    decreases fuel, 2, |arms|
  {
    hide Enter, Unpack;
    if |arms| > 0 {
      SameUnpack(env, arms[0].pattern, fields, st);
      if arms[0].pattern.name == tag {
        match Unpack(env, arms[0].pattern, fields, st)
        case None =>
        case Some(st') => LooseEnter(env, arms[0].body, st', fuel);
      } else {
        LooseArms(env, arms[1..], tag, fields, st, fuel);
      }
    }
  }

  lemma SameUnpack(env: Env, p: Pattern, fields: Stack, st: Stack)
    ensures Unpack(Loosened(env), p, fields, st) == Unpack(env, p, fields, st)
  {
  }
}
