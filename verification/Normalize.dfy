/** The pass that turns literal `[ .. ] [ .. ] if` into a conditional statement
    (crates/compiler/src/normalize.rs). */
module Normalize {
  import opened Ast

  /** Position i starts a Quotation, Quotation, `if` triple. */
  predicate TripleAt(s: seq<Statement>, i: nat) {
    && i + 2 < |s|
    && s[i].Quotation? && s[i + 1].Quotation?
    && s[i + 2].WordCall? && s[i + 2].name == "if"
  }

  // ---- What the pass computes, by recursion ----

  function Lower(s: seq<Statement>): seq<Statement>
    decreases s
  {
    if |s| == 0 then []
    else if TripleAt(s, 0) then
      [If(Lower(s[0].body), Else(Lower(s[1].body)), s[2].span)] + Lower(s[3..])
    else
      [LowerStatement(s[0])] + Lower(s[1..])
  }

  function LowerStatement(s: Statement): Statement
    decreases s
  {
    match s
    case If(t, e, span) => If(Lower(t), LowerElse(e), span)
    case Match(arms, span) => Match(LowerArms(arms), span)
    case Quotation(id, body) => Quotation(id, Lower(body))
    case _ => s
  }

  function LowerElse(e: ElseBranch): ElseBranch
    decreases e
  {
    match e
    case NoElse => NoElse
    case Else(body) => Else(Lower(body))
  }

  function LowerArms(arms: seq<MatchArm>): (r: seq<MatchArm>)
    ensures |r| == |arms|
    decreases arms
  {
    if |arms| == 0 then [] else [LowerArm(arms[0])] + LowerArms(arms[1..])
  }

  function LowerArm(arm: MatchArm): MatchArm
    decreases arm
  {
    MatchArm(arm.pattern, Lower(arm.body))
  }

  function LowerWord(w: WordDef): WordDef {
    WordDef(w.name, Lower(w.body))
  }

  // ---- The in-place loop ----

  function Remove(s: seq<Statement>, i: nat): seq<Statement>
    requires i < |s|
  {
    s[..i] + s[i + 1..]
  }

  function Insert(s: seq<Statement>, i: nat, x: Statement): seq<Statement>
    requires i <= |s|
  {
    s[..i] + [x] + s[i..]
  }

  /** Removing the three statements of a triple at i and inserting x in their place. */
  lemma ReplaceTriple(s0: seq<Statement>, i: nat, x: Statement)
    requires i + 3 <= |s0|
    ensures var s1 := Remove(s0, i + 2);
      var s2 := Remove(s1, i + 1);
      var s3 := Remove(s2, i);
      && |s1| == |s0| - 1 && |s2| == |s0| - 2 && |s3| == |s0| - 3
      && s1[i + 1] == s0[i + 1] && s2[i] == s0[i]
      && Insert(s3, i, x) == s0[..i] + [x] + s0[i + 3..]
  {
    assert Remove(s0, i + 2) == s0[..i + 2] + s0[i + 3..];
    assert Remove(Remove(s0, i + 2), i + 1) == s0[..i + 1] + s0[i + 3..];
    assert Remove(Remove(Remove(s0, i + 2), i + 1), i) == s0[..i] + s0[i + 3..];
  }

  /** The loop of the pass has finished the first i statements, which is all of `body` up to k. */
  ghost predicate RewrittenUpTo(body: seq<Statement>, k: nat, statements: seq<Statement>, i: nat) {
    && k <= |body| && i <= |statements|
    && statements[i..] == body[k..]
    && Lower(body) == statements[..i] + Lower(body[k..])
  }

  lemma TripleStep(body: seq<Statement>, k: nat, s0: seq<Statement>, i: nat, s1: seq<Statement>)
    requires RewrittenUpTo(body, k, s0, i) && TripleAt(s0, i)
    requires s1 == s0[..i] + [If(Lower(s0[i].body), Else(Lower(s0[i + 1].body)), s0[i + 2].span)] + s0[i + 3..]
    ensures RewrittenUpTo(body, k + 3, s1, i + 1)
  {
    hide LowerStatement;
    var rest := body[k..];
    assert rest[0] == s0[i] && rest[1] == s0[i + 1] && rest[2] == s0[i + 2];
    assert rest[3..] == body[k + 3..] == s0[i..][3..];
    assert s0[i..][3..] == s0[i + 3..] == s1[i + 1..];
    assert s1[..i + 1] == s0[..i] + [s1[i]];
  }

  lemma SingleStep(body: seq<Statement>, k: nat, s0: seq<Statement>, i: nat, s1: seq<Statement>)
    requires RewrittenUpTo(body, k, s0, i) && i < |s0| && !TripleAt(s0, i)
    requires s1 == s0[i := LowerStatement(s0[i])]
    ensures RewrittenUpTo(body, k + 1, s1, i + 1)
  {
    hide LowerStatement;
    var rest := body[k..];
    assert rest[0] == s0[i] && TripleAt(rest, 0) == TripleAt(s0, i);
    assert rest[1..] == body[k + 1..] == s0[i..][1..];
    assert s0[i..][1..] == s0[i + 1..] == s1[i + 1..];
    assert s1[..i + 1] == s0[..i] + [s1[i]];
  }

  /** The statements still to be looked at are those of `body` from k on. */
  lemma SameStatement(body: seq<Statement>, k: nat, s: seq<Statement>, i: nat, j: nat)
    requires RewrittenUpTo(body, k, s, i) && i + j < |s|
    ensures k + j < |body| && s[i + j] == body[k + j]
  {
    hide Lower;
    assert s[i..][j] == body[k..][j];
  }

  /** `body` is the list that is edited in place; the result is its final contents. */
  method RewriteStatements(body: seq<Statement>) returns (statements: seq<Statement>)
    ensures statements == Lower(body)
    decreases body
  {
    hide Lower, LowerStatement, Insert, Remove, RewrittenUpTo;
    statements := body;
    var i := 0;
    ghost var k := 0;
    RewrittenStart(body);
    while i < |statements|
      invariant i <= |statements| && RewrittenUpTo(body, k, statements, i)
      decreases |statements| - i
    {
      ghost var before := statements;
      SameStatement(body, k, before, i, 0);
      if i + 2 < |statements| && TripleAt(statements, i) {
        SameStatement(body, k, before, i, 1);
        var ifSpan := statements[i + 2].span;
        ReplaceTriple(before, i, If(Lower(before[i].body), Else(Lower(before[i + 1].body)), ifSpan));
        statements := Remove(statements, i + 2);
        var elseQuot := statements[i + 1];
        statements := Remove(statements, i + 1);
        var thenQuot := statements[i];
        statements := Remove(statements, i);
        var thenBody := RewriteStatements(thenQuot.body);
        var elseBody := RewriteStatements(elseQuot.body);
        statements := Insert(statements, i, If(thenBody, Else(elseBody), ifSpan));
        TripleStep(body, k, before, i, statements);
        k := k + 3;
      } else {
        var s := RewriteStatement(statements[i]);
        statements := statements[i := s];
        SingleStep(body, k, before, i, statements);
        k := k + 1;
      }
      i := i + 1;
    }
    RewrittenEnd(body, k, statements, i);
  }

  lemma RewrittenStart(body: seq<Statement>)
    ensures RewrittenUpTo(body, 0, body, 0)
  {
    assert body[0..] == body && body[..0] == [];
    assert [] + Lower(body) == Lower(body);
  }

  lemma RewrittenEnd(body: seq<Statement>, k: nat, s: seq<Statement>, i: nat)
    requires RewrittenUpTo(body, k, s, i) && i == |s|
    ensures s == Lower(body)
  {
    hide LowerStatement;
    assert body[k..] == [] && s[..i] == s;
  }

  method RewriteStatement(s: Statement) returns (r: Statement)
    ensures r == LowerStatement(s)
    decreases s
  {
    hide Lower;
    match s
    case If(t, e, span) =>
      var thenBranch := RewriteStatements(t);
      var elseBranch := e;
      if e.Else? {
        var body := RewriteStatements(e.body);
        elseBranch := Else(body);
      }
      r := If(thenBranch, elseBranch, span);
    case Match(arms, span) =>
      var arms' := arms;
      for a := 0 to |arms|
        invariant |arms'| == |arms|
        invariant forall j :: a <= j < |arms| ==> arms'[j] == arms[j]
        invariant forall j :: 0 <= j < a ==> arms'[j] == LowerArm(arms[j])
      {
        assert arms[a] < s;
        var body := RewriteStatements(arms'[a].body);
        arms' := arms'[a := arms'[a].(body := body)];
      }
      LowerArmsAt(arms);
      assert arms' == LowerArms(arms);
      r := Match(arms', span);
    case Quotation(id, body) =>
      var b := RewriteStatements(body);
      r := Quotation(id, b);
    case _ =>
      r := s;
  }

  lemma {:induction false} LowerArmsAt(arms: seq<MatchArm>)
    ensures forall j :: 0 <= j < |arms| ==> LowerArms(arms)[j] == LowerArm(arms[j])
  {
    hide LowerArm;
    if |arms| > 0 {
      LowerArmsAt(arms[1..]);
    }
  }

  method LowerLiteralIfCombinators(p: Program) returns (r: Program)
    ensures r == LowerProgram(p)
  {
    var words := p.words;
    for k := 0 to |words|
      invariant |words| == |p.words| && words[k..] == p.words[k..]
      invariant forall j :: 0 <= j < k ==> words[j] == LowerWord(p.words[j])
    {
      assert words[k] == words[k..][0] == p.words[k];
      var body := RewriteStatements(words[k].body);
      ghost var before := words;
      words := words[k := words[k].(body := body)];
      assert words[k + 1..] == before[k..][1..] == p.words[k + 1..];
    }
    r := Program(words);
  }

  function LowerProgram(p: Program): Program {
    Program(seq(|p.words|, k requires 0 <= k < |p.words| => LowerWord(p.words[k])))
  }

  // ---- Normal form ----

  /** No triple is left at any nesting depth. */
  predicate Normal(s: seq<Statement>)
    decreases s
  {
    && (forall i :: 0 <= i < |s| ==> !TripleAt(s, i))
    && (forall i :: 0 <= i < |s| ==> NormalStatement(s[i]))
  }

  predicate NormalStatement(s: Statement)
    decreases s
  {
    match s
    case If(t, e, _) => Normal(t) && NormalElse(e)
    case Match(arms, _) => forall a :: 0 <= a < |arms| ==> NormalArm(arms[a])
    case Quotation(_, body) => Normal(body)
    case _ => true
  }

  predicate NormalElse(e: ElseBranch)
    decreases e
  {
    e.Else? ==> Normal(e.body)
  }

  predicate NormalArm(arm: MatchArm)
    decreases arm
  {
    Normal(arm.body)
  }

  /** A Quotation or a call at the front of the output stood at the front of the input. */
  lemma LowerFront(s: seq<Statement>)
    requires |Lower(s)| > 0 && !Lower(s)[0].If?
    ensures |s| > 0 && !TripleAt(s, 0) && Lower(s)[0] == LowerStatement(s[0]) && Lower(s)[1..] == Lower(s[1..])
  {
    hide LowerStatement;
  }

  /** A triple at the front of the output would have been a triple at the front of the input. */
  lemma NoFrontTriple(s: seq<Statement>)
    ensures !TripleAt(Lower(s), 0)
  {
    hide Lower;
    var r := Lower(s);
    if |r| > 2 && r[0].Quotation? && r[1].Quotation? && r[2].WordCall? {
      LowerFront(s);
      assert Lower(s[1..])[0] == r[1] && Lower(s[1..])[1] == r[2];
      LowerFront(s[1..]);
      assert Lower(s[1..][1..])[0] == r[2];
      LowerFront(s[1..][1..]);
      assert s[1..][0] == s[1] && s[1..][1..][0] == s[2];
    }
  }

  lemma {:induction false} LowerIsNormal(s: seq<Statement>)
    ensures Normal(Lower(s))
    decreases s
  {
    if |s| > 0 {
      var r := Lower(s);
      NoFrontTriple(s);
      var n := if TripleAt(s, 0) then 3 else 1;
      if TripleAt(s, 0) {
        LowerIsNormal(s[0].body);
        LowerIsNormal(s[1].body);
      } else {
        LowerStatementIsNormal(s[0]);
      }
      LowerIsNormal(s[n..]);
      NormalCons(r[0], Lower(s[n..]));
      assert r == [r[0]] + Lower(s[n..]);
    }
  }

  lemma NormalCons(x: Statement, tail: seq<Statement>)
    requires NormalStatement(x) && Normal(tail) && !TripleAt([x] + tail, 0)
    ensures Normal([x] + tail)
  {
    hide NormalStatement;
    var r := [x] + tail;
    forall i | 0 <= i < |r| ensures !TripleAt(r, i) && NormalStatement(r[i]) {
      if i > 0 {
        assert r[i] == tail[i - 1];
        assert TripleAt(r, i) == TripleAt(tail, i - 1);
      }
    }
  }

  lemma {:induction false} LowerStatementIsNormal(s: Statement)
    ensures NormalStatement(LowerStatement(s))
    decreases s
  {
    match s
    case If(t, e, _) =>
      LowerIsNormal(t);
      if e.Else? { LowerIsNormal(e.body); }
    case Match(arms, _) =>
      LowerArmsAt(arms);
      forall a | 0 <= a < |arms| ensures NormalArm(LowerArms(arms)[a]) {
        assert arms[a] < s;
        LowerIsNormal(arms[a].body);
      }
    case Quotation(_, body) => LowerIsNormal(body);
    case _ =>
  }

  /** Normal code is left alone. */
  lemma {:induction false} NormalFixed(s: seq<Statement>)
    requires Normal(s)
    ensures Lower(s) == s
    decreases s
  {
    if |s| > 0 {
      NormalStatementFixed(s[0]);
      var tail := s[1..];
      assert Normal(tail) by {
        forall i | 0 <= i < |tail| ensures !TripleAt(tail, i) && NormalStatement(tail[i]) {
          assert tail[i] == s[i + 1] && !TripleAt(s, i + 1);
        }
      }
      NormalFixed(tail);
    }
  }

  lemma {:induction false} NormalStatementFixed(s: Statement)
    requires NormalStatement(s)
    ensures LowerStatement(s) == s
    decreases s
  {
    match s
    case If(t, e, _) =>
      NormalFixed(t);
      if e.Else? { NormalFixed(e.body); }
    case Match(arms, _) =>
      LowerArmsAt(arms);
      forall a | 0 <= a < |arms| ensures LowerArms(arms)[a] == arms[a] {
        assert arms[a] < s && NormalArm(arms[a]);
        NormalFixed(arms[a].body);
      }
      assert LowerArms(arms) == arms;
    case Quotation(_, body) => NormalFixed(body);
    case _ =>
  }

  /** Running the pass a second time changes nothing. */
  lemma LowerIdempotent(p: Program)
    ensures LowerProgram(LowerProgram(p)) == LowerProgram(p)
    ensures forall w :: w in LowerProgram(p).words ==> Normal(w.body)
  {
    forall k | 0 <= k < |p.words| ensures Lower(Lower(p.words[k].body)) == Lower(p.words[k].body)
        && Normal(Lower(p.words[k].body)) {
      LowerIsNormal(p.words[k].body);
      NormalFixed(Lower(p.words[k].body));
    }
  }
}
