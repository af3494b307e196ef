/** What the meaning of programs makes of the words that run quotations, of the shuffles, of variants
    and of branches: laws that tie one to another, and to the model of the value stack. */
module MeaningLaws {
  import opened Ast
  import opened Wrappers
  import opened Normalize
  import opened Semantics
  import Values
  import Slots = Stack

  function Named(name: string): Statement {
    WordCall(name, None)
  }

  /** A step that cannot start a literal triple with what follows. */
  lemma OneStep(env: Env, x: Statement, tail: seq<Statement>, st: Stack, fuel: nat)
    requires !x.Quotation? || |tail| < 2
    ensures Exec(env, [x] + tail, st, fuel) == Continue(env, Step(env, x, st, fuel), tail, fuel)
  {
    hide Step;
    assert ([x] + tail)[1..] == tail;
    SplitRun(env, [x] + tail, st, fuel);
  }

  lemma NoSteps(env: Env, st: Stack, fuel: nat)
    ensures Exec(env, [], st, fuel) == Done(st)
  {
  }

  lemma TwoSteps(env: Env, x: Statement, y: Statement, st: Stack, fuel: nat)
    ensures Exec(env, [x, y], st, fuel) == Continue(env, Step(env, x, st, fuel), [y], fuel)
    ensures Exec(env, [y], st, fuel) == Step(env, y, st, fuel)
  {
    hide Step;
    assert [x, y] == [x] + [y] && [y] == [y] + [];
    OneStep(env, x, [y], st, fuel);
    OneStep(env, y, [], st, fuel);
    if Step(env, y, st, fuel).Done? { NoSteps(env, Step(env, y, st, fuel).stack, fuel); }
  }

  // ---- Words that run quotations ----

  /** A literal quotation before a word is on top when the word runs. */
  lemma QuotedWord(env: Env, id: nat, q: seq<Statement>, w: Statement, st: Stack, fuel: nat)
    ensures Exec(env, [Quotation(id, q), w], st, fuel) == Step(env, w, Push(Quot(q), st), fuel)
  {
    hide Exec, Word, RunArms;
    TwoSteps(env, Quotation(id, q), w, st, fuel);
    TwoSteps(env, w, w, Push(Quot(q), st), fuel);
  }

  /** `[ q ] call` runs q here, one level down. */
  lemma CallRuns(env: Env, id: nat, q: seq<Statement>, st: Stack, fuel: nat)
    ensures Exec(env, [Quotation(id, q), Named("call")], st, fuel) == Enter(env, q, st, fuel)
    ensures Enter(env, q, st, fuel) == if fuel == 0 then OutOfFuel else Exec(env, q, st, fuel - 1)
  {
    hide Exec;
    QuotedWord(env, id, q, Named("call"), st, fuel);
    WordStep(env, "call", Call, Push(Quot(q), st), fuel);
    assert Word(env, Call, "call", Push(Quot(q), st), fuel) == Invoke(env, Quot(q), st, fuel);
  }

  /** `[ q ] dip` runs q below the top value. */
  lemma DipRuns(env: Env, id: nat, q: seq<Statement>, x: Value, st: Stack, fuel: nat)
    ensures var o := Enter(env, q, st, fuel);
            Exec(env, [Quotation(id, q), Named("dip")], Push(x, st), fuel)
            == if o.Done? then Done(Push(x, o.stack)) else o
  {
    hide Exec, Enter;
    QuotedWord(env, id, q, Named("dip"), Push(x, st), fuel);
    WordStep(env, "dip", Dip, Push(Quot(q), Push(x, st)), fuel);
    DipStep(env, q, x, st, fuel);
  }

  lemma WordStep(env: Env, name: string, op: Op, st: Stack, fuel: nat)
    requires OpOf(name) == op
    ensures Step(env, Named(name), st, fuel) == Word(env, op, name, st, fuel)
  {
    hide Word;
  }

  lemma DipStep(env: Env, q: seq<Statement>, x: Value, st: Stack, fuel: nat)
    ensures var o := Enter(env, q, st, fuel);
            Word(env, Dip, "dip", Push(Quot(q), Push(x, st)), fuel)
            == if o.Done? then Done(Push(x, o.stack)) else o
  {
    hide Enter;
  }

  /** What a word does to what two literal quotations leave. */
  lemma TwoQuoted(env: Env, i: nat, p: seq<Statement>, j: nat, q: seq<Statement>, name: string, st: Stack,
                  fuel: nat)
    requires name == "if" ==> st.Push? && st.top.Bool?
    ensures Exec(env, [Quotation(i, p), Quotation(j, q), Named(name)], st, fuel)
         == Step(env, Named(name), Push(Quot(q), Push(Quot(p), st)), fuel)
  {
    hide Exec, Word;
    var w := Named(name);
    var body := [Quotation(i, p), Quotation(j, q), w];
    SplitRun(env, body, st, fuel);
    assert body[1..] == [Quotation(j, q), w];
    QuotedWord(env, j, q, w, Push(Quot(p), st), fuel);
  }

  /** `[ q ] keep` is `dup [ q ] dip`. */
  lemma KeepIsDupDip(env: Env, id: nat, q: seq<Statement>, st: Stack, fuel: nat)
    ensures Exec(env, [Quotation(id, q), Named("keep")], st, fuel)
         == Exec(env, [Named("dup"), Quotation(id, q), Named("dip")], st, fuel)
  {
    hide Exec, Enter;
    QuotedWord(env, id, q, Named("keep"), st, fuel);
    assert [Named("dup"), Quotation(id, q), Named("dip")] == [Named("dup")] + [Quotation(id, q), Named("dip")];
    OneStep(env, Named("dup"), [Quotation(id, q), Named("dip")], st, fuel);
    if st.Push? { QuotedWord(env, id, q, Named("dip"), Push(st.top, st), fuel); }
  }

  /** `[ p ] [ q ] bi` is `[ p ] keep [ q ] call`. */
  lemma BiIsKeepCall(env: Env, i: nat, p: seq<Statement>, j: nat, q: seq<Statement>, st: Stack, fuel: nat)
    ensures Exec(env, [Quotation(i, p), Quotation(j, q), Named("bi")], st, fuel)
         == Exec(env, [Quotation(i, p), Named("keep"), Quotation(j, q), Named("call")], st, fuel)
  {
    hide Exec, Enter;
    var right := [Quotation(i, p), Named("keep"), Quotation(j, q), Named("call")];
    var st1 := Push(Quot(p), st);
    TwoQuoted(env, i, p, j, q, "bi", st, fuel);
    SplitRun(env, right, st, fuel);
    assert right[1..] == [Named("keep")] + [Quotation(j, q), Named("call")];
    OneStep(env, Named("keep"), [Quotation(j, q), Named("call")], st1, fuel);
    var kept := Step(env, Named("keep"), st1, fuel);
    if kept.Done? { CallRuns(env, j, q, kept.stack, fuel); }
    WordStep(env, "keep", Keep, st1, fuel);
    WordStep(env, "bi", Bi, Push(Quot(q), st1), fuel);
    BiStep(env, p, q, st, fuel);
  }

  lemma BiStep(env: Env, p: seq<Statement>, q: seq<Statement>, st: Stack, fuel: nat)
    ensures var kept := Word(env, Keep, "keep", Push(Quot(p), st), fuel);
            Word(env, Bi, "bi", Push(Quot(q), Push(Quot(p), st)), fuel)
            == if kept.Done? then Enter(env, q, kept.stack, fuel) else kept
  {
    hide Enter;
  }

  /** `[ t ] [ e ] if` is `[ t ] call` on true and `[ e ] call` on false. */
  lemma IfIsCall(env: Env, i: nat, t: seq<Statement>, j: nat, e: seq<Statement>, b: bool, st: Stack, fuel: nat)
    ensures Exec(env, [Quotation(i, t), Quotation(j, e), Named("if")], Push(Bool(b), st), fuel)
         == Exec(env, [if b then Quotation(i, t) else Quotation(j, e), Named("call")], st, fuel)
  {
    hide Exec, Enter;
    TwoQuoted(env, i, t, j, e, "if", Push(Bool(b), st), fuel);
    CallRuns(env, if b then i else j, if b then t else e, st, fuel);
    WordStep(env, "if", IfOp, Push(Quot(e), Push(Quot(t), Push(Bool(b), st))), fuel);
    IfStep(env, t, e, b, st, fuel);
  }

  lemma IfStep(env: Env, t: seq<Statement>, e: seq<Statement>, b: bool, st: Stack, fuel: nat)
    ensures Word(env, IfOp, "if", Push(Quot(e), Push(Quot(t), Push(Bool(b), st))), fuel)
         == Enter(env, if b then t else e, st, fuel)
  {
    hide Enter;
  }

  /** A user word runs its definition, unless a builtin has the name. */
  lemma WordRunsBody(env: Env, name: string, st: Stack, fuel: nat)
    requires OpOf(name).NotBuiltin? && name !in env.prims && name in env.words
    ensures Exec(env, [Named(name)], st, fuel)
         == Exec(env, [Quotation(0, env.words[name]), Named("call")], st, fuel)
  {
    hide Exec, Enter;
    TwoSteps(env, Named(name), Named(name), st, fuel);
    CallRuns(env, 0, env.words[name], st, fuel);
  }

  /** Literals push themselves, in order. */
  lemma LiteralsPush(env: Env, i: int, r: real, b: bool, bytes: seq<bv8>, name: string, q: seq<Statement>, st: Stack,
                     fuel: nat)
    ensures Exec(env, [IntLiteral(i), FloatLiteral(r), BoolLiteral(b)], st, fuel)
         == Done(Push(Bool(b), Push(Float(r), Push(Int(i), st))))
    ensures Exec(env, [StringLiteral(bytes), Symbol(name), Quotation(0, q)], st, fuel)
         == Done(Push(Quot(q), Push(Sym(name), Push(Str(bytes), st))))
  {
    hide Exec;
    var a := [IntLiteral(i), FloatLiteral(r), BoolLiteral(b)];
    var c := [StringLiteral(bytes), Symbol(name), Quotation(0, q)];
    assert a == [IntLiteral(i)] + [FloatLiteral(r), BoolLiteral(b)];
    OneStep(env, IntLiteral(i), [FloatLiteral(r), BoolLiteral(b)], st, fuel);
    TwoSteps(env, FloatLiteral(r), BoolLiteral(b), Push(Int(i), st), fuel);
    TwoSteps(env, FloatLiteral(r), BoolLiteral(b), Push(Float(r), Push(Int(i), st)), fuel);
    assert c == [StringLiteral(bytes)] + [Symbol(name), Quotation(0, q)];
    OneStep(env, StringLiteral(bytes), [Symbol(name), Quotation(0, q)], st, fuel);
    TwoSteps(env, Symbol(name), Quotation(0, q), Push(Str(bytes), st), fuel);
    TwoSteps(env, Symbol(name), Quotation(0, q), Push(Sym(name), Push(Str(bytes), st)), fuel);
  }

  // ---- Shuffles: the same as on the value stack ----

  /** The values from the base up, as the value stack lists its slots. */
  function FromBase(st: Stack): seq<Value> {
    match st
    case Empty => []
    case Push(v, rest) => FromBase(rest) + [v]
  }

  function NameOf(op: Slots.Shuffle): string {
    match op
    case Dup => "dup"
    case Drop => "drop"
    case Swap => "swap"
    case Over => "over"
    case Rot => "rot"
    case Nip => "nip"
    case Tuck => "tuck"
    case TwoDup => "2dup"
  }

  /** Running the word does to the values what the operation on the value stack does, and stops
      exactly where there are too few. */
  lemma ShufflesAgree(env: Env, op: Slots.Shuffle, st: Stack, fuel: nat)
    ensures var o := Exec(env, [Named(NameOf(op))], st, fuel);
            if |FromBase(st)| < Slots.Needs(op) then o == Failed(Underflow)
            else o.Done? && FromBase(o.stack) == Slots.Shuffled(op, FromBase(st))
  {
    hide Exec, Slots.Shuffled, FromBase, Shuffle;
    TwoSteps(env, Named(NameOf(op)), Named(NameOf(op)), st, fuel);
    WordIsShuffle(env, op, st, fuel);
    ShuffleMatches(op, st);
  }

  /** The operation of the meaning. */
  function OpFor(op: Slots.Shuffle): Op {
    match op
    case Dup => Dup
    case Drop => Drop
    case Swap => Swap
    case Over => Over
    case Rot => Rot
    case Nip => Nip
    case Tuck => Tuck
    case TwoDup => TwoDup
  }

  lemma WordIsShuffle(env: Env, op: Slots.Shuffle, st: Stack, fuel: nat)
    ensures Step(env, Named(NameOf(op)), st, fuel) == Shuffle(OpFor(op), st)
  {
    hide Shuffle;
  }

  lemma ShuffleMatches(op: Slots.Shuffle, st: Stack)
    ensures var o := Shuffle(OpFor(op), st);
            if |FromBase(st)| < Slots.Needs(op) then o == Failed(Underflow)
            else o.Done? && FromBase(o.stack) == Slots.Shuffled(op, FromBase(st))
  {
    hide Slots.Shuffled;
    match op
    case Dup => ShuffleOne(st);
    case Drop => ShuffleOne(st);
    case Rot => ShuffleRot(st);
    case _ => ShuffleTwo(op, st);
  }

  lemma ShuffleOne(st: Stack)
    ensures |FromBase(st)| < 1 ==> Shuffle(Dup, st) == Shuffle(Drop, st) == Failed(Underflow)
    ensures |FromBase(st)| >= 1 ==>
              && Shuffle(Dup, st).Done? && Shuffle(Drop, st).Done?
              && FromBase(Shuffle(Dup, st).stack) == Slots.Shuffled(Slots.Dup, FromBase(st))
              && FromBase(Shuffle(Drop, st).stack) == Slots.Shuffled(Slots.Drop, FromBase(st))
  {
    hide Slots.Shuffled;
    if st.Push? {
      var p := FromBase(st.rest);
      Slots.ShuffleEffects(p, st.top, st.top, st.top);
      assert FromBase(st) == p + [st.top];
      assert FromBase(Push(st.top, st)) == p + [st.top] + [st.top] == p + [st.top, st.top];
    }
  }

  lemma ShuffleTwo(op: Slots.Shuffle, st: Stack)
    requires op.Swap? || op.Over? || op.Nip? || op.Tuck? || op.TwoDup?
    ensures var o := Shuffle(OpFor(op), st);
            if |FromBase(st)| < 2 then o == Failed(Underflow)
            else o.Done? && FromBase(o.stack) == Slots.Shuffled(op, FromBase(st))
  {
    hide Slots.Shuffled;
    if st.Push? && st.rest.Push? {
      var (c, b, r) := (st.top, st.rest.top, st.rest.rest);
      assert st == Push(c, Push(b, r));
      TopTwo(b, c, r);
      Slots.ShuffleEffects(FromBase(r), b, c, c);
      hide FromBase;
      match op
      case Swap => assert Shuffle(Swap, st) == Done(Push(b, Push(c, r)));
      case Over => assert Shuffle(Over, st) == Done(Push(b, Push(c, Push(b, r))));
      case Nip => assert Shuffle(Nip, st) == Done(Push(c, r));
      case Tuck => assert Shuffle(Tuck, st) == Done(Push(c, Push(b, Push(c, r))));
      case TwoDup => assert Shuffle(TwoDup, st) == Done(Push(c, Push(b, Push(c, Push(b, r)))));
    }
  }

  lemma ShuffleRot(st: Stack)
    ensures var o := Shuffle(Rot, st);
            if |FromBase(st)| < 3 then o == Failed(Underflow)
            else o.Done? && FromBase(o.stack) == Slots.Shuffled(Slots.Rot, FromBase(st))
  {
    hide Slots.Shuffled;
    if st.Push? && st.rest.Push? && st.rest.rest.Push? {
      var (c, b, a, r) := (st.top, st.rest.top, st.rest.rest.top, st.rest.rest.rest);
      assert st == Push(c, Push(b, Push(a, r)));
      TopThree(a, b, c, r);
      Slots.ShuffleEffects(FromBase(r), a, b, c);
    }
  }

  lemma TopTwo(b: Value, c: Value, r: Stack)
    ensures FromBase(Push(c, Push(b, r))) == FromBase(r) + [b, c] == (FromBase(r) + [b]) + [c]
    ensures FromBase(Push(b, Push(c, Push(b, r)))) == FromBase(r) + [b, c, b]
    ensures FromBase(Push(c, Push(b, Push(c, Push(b, r))))) == FromBase(r) + [b, c, b, c]
    ensures FromBase(Push(c, Push(c, Push(b, r)))) == (FromBase(r) + [b]) + [c, c]
    ensures FromBase(Push(c, Push(b, Push(c, r)))) == FromBase(r) + [c, b, c]
    ensures FromBase(Push(b, Push(c, r))) == FromBase(r) + [c, b]
    ensures FromBase(Push(c, r)) == FromBase(r) + [c]
  {
    var (vb, vc) := (Push(b, r), Push(c, r));
    assert FromBase(vb) == FromBase(r) + [b] && FromBase(vc) == FromBase(r) + [c];
    assert FromBase(Push(c, vb)) == FromBase(r) + [b] + [c] && FromBase(Push(b, vc)) == FromBase(r) + [c] + [b];
    assert FromBase(Push(b, Push(c, vb))) == FromBase(Push(c, vb)) + [b];
  }

  lemma TopThree(a: Value, b: Value, c: Value, r: Stack)
    ensures FromBase(Push(c, Push(b, Push(a, r)))) == FromBase(r) + [a, b, c]
    ensures FromBase(Push(a, Push(c, Push(b, r)))) == FromBase(r) + [b, c, a]
  {
    TopTwo(a, b, r);
    TopTwo(b, c, r);
  }

  // ---- Branches ----

  /** What a branch tests is the payload of the slot: the word without its lowest bit. */
  lemma PayloadIsWord(v: Values.Value, addr: Values.Word, other: Value)
    requires addr % 8 == 0 && addr != 0
    ensures v.Bool? ==> (Slots.Boxed(v, addr) / 2 != 0 <==> PayloadNonZero(Bool(v.b)))
    ensures v.Int? && -Values.TWO_62 <= v.i < Values.TWO_62 ==>
              (Slots.Boxed(v, addr) / 2 != 0 <==> PayloadNonZero(Int(v.i)))
    ensures !v.Bool? && !v.Int? ==> Slots.Boxed(v, addr) / 2 != 0
    ensures !other.Bool? && !other.Int? ==> PayloadNonZero(other)
  {
  }

  /** A match runs the first arm with the variant's name, and stops when there is none. */
  lemma {:induction false} MatchTakesFirst(env: Env, arms: seq<MatchArm>, k: nat, tag: string, fields: Stack, st: Stack,
                                           fuel: nat)
    requires k <= |arms| && forall j :: 0 <= j < k ==> arms[j].pattern.name != tag
    requires k < |arms| ==> arms[k].pattern.name == tag
    ensures k == |arms| ==> RunArms(env, arms, tag, fields, st, fuel) == Failed(NoMatchingArm)
    ensures k < |arms| ==>
              var unpacked := Unpack(env, arms[k].pattern, fields, st);
              RunArms(env, arms, tag, fields, st, fuel)
              == if unpacked.None? then Failed(BadFields) else Enter(env, arms[k].body, unpacked.value, fuel)
    decreases k
  {
    hide Enter, Unpack;
    if k > 0 { MatchTakesFirst(env, arms[1..], k - 1, tag, fields, st, fuel); }
  }

  /** The same of a match statement. */
  lemma MatchStatement(env: Env, arms: seq<MatchArm>, span: Option<Span>, k: nat, v: Value, st: Stack, fuel: nat)
    requires v.Tagged? ==> k <= |arms| && forall j :: 0 <= j < k ==> arms[j].pattern.name != v.tag
    requires v.Tagged? && k < |arms| ==> arms[k].pattern.name == v.tag
    ensures var o := Exec(env, [Match(arms, span)], Push(v, st), fuel);
            && (!v.Tagged? ==> o == Failed(NotAVariant))
            && (v.Tagged? && k == |arms| ==> o == Failed(NoMatchingArm))
            && (v.Tagged? && k < |arms| ==>
                  var unpacked := Unpack(env, arms[k].pattern, v.fields, st);
                  o == if unpacked.None? then Failed(BadFields) else Enter(env, arms[k].body, unpacked.value, fuel))
  {
    hide Exec, Enter, Unpack, RunArms;
    TwoSteps(env, Match(arms, span), Match(arms, span), Push(v, st), fuel);
    if v.Tagged? { MatchTakesFirst(env, arms, k, v.tag, v.fields, st, fuel); }
  }

  /** A conditional statement on a Bool is a call of the branch, or nothing. */
  lemma IfStatement(env: Env, t: seq<Statement>, e: ElseBranch, span: Option<Span>, b: bool, st: Stack, fuel: nat)
    ensures Exec(env, [If(t, e, span)], Push(Bool(b), st), fuel)
         == if b then Exec(env, [Quotation(0, t), Named("call")], st, fuel)
            else if e.Else? then Exec(env, [Quotation(0, e.body), Named("call")], st, fuel)
            else Done(st)
  {
    hide Exec, Enter;
    TwoSteps(env, If(t, e, span), If(t, e, span), Push(Bool(b), st), fuel);
    CallRuns(env, 0, t, st, fuel);
    if e.Else? { CallRuns(env, 0, e.body, st, fuel); }
  }

  // ---- Builtins on data ----

  lemma {:induction false} TakeAppend(args: Stack, back: Stack)
    ensures Take(Append(args, back), Length(args)) == Some((args, back))
  {
    if args.Push? { TakeAppend(args.rest, back); }
  }

  /** A builtin on data sees as many values as it asks for and leaves those below; it comes before a
      user word of the same name. */
  lemma PrimRuns(env: Env, name: string, args: Stack, back: Stack, fuel: nat)
    requires OpOf(name).NotBuiltin? && name in env.prims && env.prims[name].arity == Length(args)
    ensures var o := Exec(env, [Named(name)], Append(args, back), fuel);
            var result := env.prims[name].apply(args);
            o == if GroundStack(args) && result.Some? && GroundStack(result.value)
                 then Done(Append(result.value, back)) else Failed(PrimFault)
  {
    hide Exec, Enter, Append;
    TwoSteps(env, Named(name), Named(name), Append(args, back), fuel);
    TakeAppend(args, back);
  }

  // ---- Variants ----

  function Length(st: Stack): nat {
    match st
    case Empty => 0
    case Push(_, rest) => 1 + Length(rest)
  }

  lemma {:induction false} TakeLaw(st: Stack, n: nat)
    ensures Take(st, n).Some? <==> n <= Length(st)
    ensures Take(st, n).Some? ==>
              Append(Take(st, n).value.0, Take(st, n).value.1) == st && Length(Take(st, n).value.0) == n
    decreases n
  {
    if n > 0 && st.Push? { TakeLaw(st.rest, n - 1); }
  }

  lemma {:induction false} TakeAll(st: Stack)
    ensures Take(st, Length(st)) == Some((st, Empty))
  {
    if st.Push? { TakeAll(st.rest); }
  }

  /** Pushing twice turns the order around twice. */
  lemma {:induction false} PushAllTwice(vs: Stack, acc: Stack, st: Stack)
    ensures PushAll(PushAll(vs, acc), st) == PushAll(acc, Append(vs, st))
    ensures Length(PushAll(vs, acc)) == Length(vs) + Length(acc)
    decreases vs
  {
    if vs.Push? { PushAllTwice(vs.rest, Push(vs.top, acc), st); }
  }

  function MakeName(n: nat): string {
    "variant.make-" + [match n case 0 => '0' case 1 => '1' case 2 => '2' case 3 => '3' case _ => '4']
  }

  lemma MakeWord(env: Env, n: nat, st: Stack, fuel: nat)
    requires n <= 4
    ensures Step(env, Named(MakeName(n)), st, fuel) == Shuffle(MakeVariant(n), st)
  {
    hide Shuffle;
    MakeOp(n);
  }

  lemma MakeOp(n: nat)
    requires n <= 4
    ensures OpOf(MakeName(n)) == MakeVariant(n)
  {
    assert MakeName(n)[0] == 'v' && |MakeName(n)| == 14;
    assert MakeName(n) == (match n case 0 => "variant.make-0" case 1 => "variant.make-1" case 2 => "variant.make-2"
                                   case 3 => "variant.make-3" case _ => "variant.make-4");
  }

  /** `variant.make-n` takes n values into a variant, and a match on its name puts them back as they were. */
  lemma MakeThenMatch(env: Env, tag: string, n: nat, st: Stack, fuel: nat)
    requires n <= 4 && n <= Length(st) && tag in env.fieldNames && |env.fieldNames[tag]| == n
    ensures var o := Step(env, Named(MakeName(n)), Push(Sym(tag), st), fuel);
            && o.Done? && o.stack.Push? && o.stack.top.Tagged? && o.stack.top.tag == tag
            && Length(o.stack.top.fields) == n
            && Unpack(env, Pattern.Variant(tag), o.stack.top.fields, o.stack.rest) == Some(st)
  {
    MakeWord(env, n, Push(Sym(tag), st), fuel);
    hide Step, MakeName;
    MakeUnpacks(env, tag, n, st);
  }

  lemma MakeUnpacks(env: Env, tag: string, n: nat, st: Stack)
    requires n <= Length(st) && tag in env.fieldNames && |env.fieldNames[tag]| == n
    ensures var o := Shuffle(MakeVariant(n), Push(Sym(tag), st));
            && o.Done? && o.stack.Push? && o.stack.top.Tagged? && o.stack.top.tag == tag
            && Length(o.stack.top.fields) == n
            && Unpack(env, Pattern.Variant(tag), o.stack.top.fields, o.stack.rest) == Some(st)
  {
    hide Take, PushAll, Append;
    TakeLaw(st, n);
    var (front, back) := Take(st, n).value;
    var fields := PushAll(front, Empty);
    PushAllTwice(front, Empty, back);
    TakeAll(fields);
    EmptyPushes(Append(front, back));
  }

  lemma EmptyPushes(st: Stack)
    ensures PushAll(Empty, st) == st && Length(Empty) == 0
  {
  }

  function Nth(fields: Stack, i: nat): Value
    requires i < Length(fields)
  {
    if i == 0 then fields.top else Nth(fields.rest, i - 1)
  }

  /** The position of the first field of that name. */
  predicate NamedAt(b: string, names: seq<string>, i: nat) {
    i < |names| && names[i] == b && forall j :: 0 <= j < i ==> names[j] != b
  }

  lemma {:induction false} FieldNamedLaw(b: string, names: seq<string>, fields: Stack, i: nat)
    requires NamedAt(b, names, i)
    ensures FieldNamed(b, names, fields) == if i < Length(fields) then Some(Nth(fields, i)) else None
    decreases i
  {
    if i > 0 && fields.Push? {
      assert NamedAt(b, names[1..], i - 1);
      FieldNamedLaw(b, names[1..], fields.rest, i - 1);
    }
  }

  /** Where each binding finds its field. */
  ghost predicate Finds(bindings: seq<string>, names: seq<string>, fields: Stack, at: seq<nat>) {
    && |at| == |bindings|
    && forall k :: 0 <= k < |at| ==> NamedAt(bindings[k], names, at[k]) && at[k] < Length(fields)
  }

  /** Bindings push the fields they name, in the order of the bindings. */
  lemma {:induction false} BindingsPush(bindings: seq<string>, names: seq<string>, fields: Stack, st: Stack,
                                        at: seq<nat>)
    requires Finds(bindings, names, fields, at)
    ensures var r := PushBindings(bindings, names, fields, st);
            r.Some? && FromBase(r.value) == FromBase(st) + seq(|at|, k requires 0 <= k < |at| => Nth(fields, at[k]))
    decreases bindings
  {
    hide FieldNamed, Nth;
    if bindings != [] {
      FieldNamedLaw(bindings[0], names, fields, at[0]);
      var v := Nth(fields, at[0]);
      BindingsPush(bindings[1..], names, fields, Push(v, st), at[1..]);
      assert seq(|at|, k requires 0 <= k < |at| => Nth(fields, at[k]))
          == [v] + seq(|at[1..]|, k requires 0 <= k < |at[1..]| => Nth(fields, at[1..][k]));
    }
  }
}
