/** What the call graph, the recursion analysis and the `chan.yield` lint see of a program
    after the `if` lowering, and exactly when that is what they saw before: only the calls of
    a user word named `if` can get lost. */
module LintAgreement {
  import opened Ast
  import opened Wrappers
  import opened Reachability
  import opened Normalize
  import opened CallGraph
  import opened ChanYieldLint

  // ---- Lists by front and rest ----

  lemma CallsCons(x: Statement, tail: seq<Statement>, n: string)
    ensures CallsName([x] + tail, n) <==> StatementCalls(x, n) || CallsName(tail, n)
  {
    var s := [x] + tail;
    if k :| 0 <= k < |tail| && StatementCalls(tail[k], n) { assert s[k + 1] == tail[k]; }
    if StatementCalls(x, n) { assert s[0] == x; }
  }

  lemma SpawnsCons(x: Statement, tail: seq<Statement>)
    ensures Spawns([x] + tail) <==> StatementSpawns(x) || Spawns(tail)
  {
    var s := [x] + tail;
    if k :| 0 <= k < |tail| && StatementSpawns(tail[k]) { assert s[k + 1] == tail[k]; }
    if StatementSpawns(x) { assert s[0] == x; }
  }

  lemma SeedsCons(previous: Option<Statement>, x: Statement, tail: seq<Statement>, n: string)
    ensures SeedsAfter(previous, [x] + tail, n) <==> StatementSeeds(previous, x, n) || SeedsAfter(Some(x), tail, n)
  {
    hide StatementSeeds;
    var s := [x] + tail;
    if k :| 0 <= k < |tail| && StatementSeeds(Before(Some(x), tail, k), tail[k], n) {
      assert s[k + 1] == tail[k] && Before(previous, s, k + 1) == Before(Some(x), tail, k);
    }
    if StatementSeeds(previous, x, n) { assert s[0] == x && Before(previous, s, 0) == previous; }
    if k :| 0 <= k < |s| && StatementSeeds(Before(previous, s, k), s[k], n) {
      if k > 0 { assert tail[k - 1] == s[k] && Before(Some(x), tail, k - 1) == Before(previous, s, k); }
    }
  }

  /** The three statements of a triple and the rest. */
  lemma Split(s: seq<Statement>)
    ensures |s| > 0 ==> s == [s[0]] + s[1..]
    ensures TripleAt(s, 0) ==> s == [s[0]] + ([s[1]] + ([s[2]] + s[3..]))
  {
  }

  // ---- Calls ----

  /** Statement k is the `if` of a literal triple. */
  predicate EndsTriple(s: seq<Statement>, k: nat) {
    k >= 2 && TripleAt(s, k - 2)
  }

  /** The calls of `name` that are not the `if` of a literal triple, at any depth. */
  ghost predicate BareCalls(s: seq<Statement>, name: string)
    decreases s
  {
    exists k :: 0 <= k < |s| && !EndsTriple(s, k) && StatementBareCalls(s[k], name)
  }

  ghost predicate StatementBareCalls(s: Statement, name: string)
    decreases s
  {
    match s
    case WordCall(n, _) => n == name
    case If(t, e, _) => BareCalls(t, name) || (e.Else? && BareCalls(e.body, name))
    case Quotation(_, body) => BareCalls(body, name)
    case Match(arms, _) => exists a :: 0 <= a < |arms| && ArmBareCalls(arms[a], name)
    case _ => false
  }

  ghost predicate ArmBareCalls(arm: MatchArm, name: string)
    decreases arm
  {
    BareCalls(arm.body, name)
  }

  lemma BareCons(s: seq<Statement>, n: string)
    requires |s| > 0 && !TripleAt(s, 0)
    ensures BareCalls(s, n) <==> StatementBareCalls(s[0], n) || BareCalls(s[1..], n)
  {
    hide StatementBareCalls;
    var tail := s[1..];
    forall k | 0 <= k < |tail| ensures tail[k] == s[k + 1] && EndsTriple(tail, k) == EndsTriple(s, k + 1) {}
    if k :| 0 <= k < |tail| && !EndsTriple(tail, k) && StatementBareCalls(tail[k], n) {
      assert !EndsTriple(s, k + 1) && StatementBareCalls(s[k + 1], n);
    }
    if k :| 0 <= k < |s| && !EndsTriple(s, k) && StatementBareCalls(s[k], n) {
      if k > 0 { assert !EndsTriple(tail, k - 1) && StatementBareCalls(tail[k - 1], n); }
    }
    assert !EndsTriple(s, 0);
  }

  lemma BareTriple(s: seq<Statement>, n: string)
    requires TripleAt(s, 0)
    ensures BareCalls(s, n) <==> BareCalls(s[0].body, n) || BareCalls(s[1].body, n) || BareCalls(s[3..], n)
  {
    hide BareCalls;
    BareTripleParts(s, n);
  }

  lemma BareTripleParts(s: seq<Statement>, n: string)
    requires TripleAt(s, 0)
    ensures BareCalls(s, n) <==> StatementBareCalls(s[0], n) || StatementBareCalls(s[1], n) || BareCalls(s[3..], n)
  {
    hide StatementBareCalls;
    var tail := s[3..];
    forall k | 0 <= k < |tail| ensures tail[k] == s[k + 3] && EndsTriple(tail, k) == EndsTriple(s, k + 3) {}
    assert !EndsTriple(s, 0) && !EndsTriple(s, 1) && EndsTriple(s, 2);
    if k :| 0 <= k < |tail| && !EndsTriple(tail, k) && StatementBareCalls(tail[k], n) {
      assert !EndsTriple(s, k + 3) && StatementBareCalls(s[k + 3], n);
    }
    if k :| 0 <= k < |s| && !EndsTriple(s, k) && StatementBareCalls(s[k], n) {
      if k > 2 { assert !EndsTriple(tail, k - 3) && StatementBareCalls(tail[k - 3], n); }
    }
  }

  /** The lowered list calls exactly what the list calls outside its literal triples. */
  lemma {:induction false} LowerCalls(s: seq<Statement>, n: string)
    ensures CallsName(Lower(s), n) <==> BareCalls(s, n)
    decreases s
  {
    hide CallsName, BareCalls, LowerStatement;
    if |s| == 0 {
      NoCalls(n);
    } else if TripleAt(s, 0) {
      BareTriple(s, n);
      LowerCalls(s[0].body, n);
      LowerCalls(s[1].body, n);
      LowerCalls(s[3..], n);
      CallsCons(If(Lower(s[0].body), Else(Lower(s[1].body)), s[2].span), Lower(s[3..]), n);
    } else {
      BareCons(s, n);
      LowerStatementCalls(s[0], n);
      LowerCalls(s[1..], n);
      CallsCons(LowerStatement(s[0]), Lower(s[1..]), n);
    }
  }

  lemma NoCalls(n: string)
    ensures !CallsName([], n) && !BareCalls([], n)
  {
  }

  lemma {:induction false} LowerStatementCalls(s: Statement, n: string)
    ensures StatementCalls(LowerStatement(s), n) <==> StatementBareCalls(s, n)
    decreases s
  {
    hide CallsName, BareCalls, Lower;
    match s
    case If(t, e, _) =>
      LowerCalls(t, n);
      if e.Else? { LowerCalls(e.body, n); }
    case Quotation(_, body) => LowerCalls(body, n);
    case Match(arms, _) =>
      LowerArmsAt(arms);
      forall a | 0 <= a < |arms| ensures ArmCalls(LowerArms(arms)[a], n) <==> ArmBareCalls(arms[a], n) {
        assert arms[a] < s;
        LowerCalls(arms[a].body, n);
      }
    case _ =>
  }

  /** A call outside the literal triples is a call, and every call but that of `if` is one. */
  lemma {:induction false} BareIsCall(s: seq<Statement>, n: string)
    ensures BareCalls(s, n) ==> CallsName(s, n)
    ensures n != "if" && CallsName(s, n) ==> BareCalls(s, n)
    decreases s
  {
    forall k | 0 <= k < |s|
      ensures StatementBareCalls(s[k], n) ==> StatementCalls(s[k], n)
      ensures n != "if" && StatementCalls(s[k], n) ==> StatementBareCalls(s[k], n) && !EndsTriple(s, k)
    {
      hide CallsName, BareCalls;
      StatementBareIsCall(s[k], n);
    }
    hide StatementCalls, StatementBareCalls;
  }

  lemma {:induction false} StatementBareIsCall(s: Statement, n: string)
    ensures StatementBareCalls(s, n) ==> StatementCalls(s, n)
    ensures n != "if" && StatementCalls(s, n) ==> StatementBareCalls(s, n)
    decreases s
  {
    hide CallsName, BareCalls;
    match s
    case If(t, e, _) =>
      BareIsCall(t, n);
      if e.Else? { BareIsCall(e.body, n); }
    case Quotation(_, body) => BareIsCall(body, n);
    case Match(arms, _) =>
      forall a | 0 <= a < |arms|
        ensures ArmBareCalls(arms[a], n) ==> ArmCalls(arms[a], n)
        ensures n != "if" && ArmCalls(arms[a], n) ==> ArmBareCalls(arms[a], n)
      {
        assert arms[a] < s;
        BareIsCall(arms[a].body, n);
      }
    case _ =>
  }

  // ---- Spawns ----

  lemma {:induction false} LowerSpawns(s: seq<Statement>)
    ensures Spawns(Lower(s)) <==> Spawns(s)
    decreases s
  {
    hide Spawns, LowerStatement;
    Split(s);
    if |s| == 0 {
    } else if TripleAt(s, 0) {
      SpawnsCons(s[0], [s[1]] + ([s[2]] + s[3..]));
      SpawnsCons(s[1], [s[2]] + s[3..]);
      SpawnsCons(s[2], s[3..]);
      LowerSpawns(s[0].body);
      LowerSpawns(s[1].body);
      LowerSpawns(s[3..]);
      SpawnsCons(If(Lower(s[0].body), Else(Lower(s[1].body)), s[2].span), Lower(s[3..]));
    } else {
      SpawnsCons(s[0], s[1..]);
      LowerStatementSpawns(s[0]);
      LowerSpawns(s[1..]);
      SpawnsCons(LowerStatement(s[0]), Lower(s[1..]));
    }
  }

  lemma {:induction false} LowerStatementSpawns(s: Statement)
    ensures StatementSpawns(LowerStatement(s)) <==> StatementSpawns(s)
    decreases s
  {
    hide Spawns, Lower;
    match s
    case If(t, e, _) =>
      LowerSpawns(t);
      if e.Else? { LowerSpawns(e.body); }
    case Quotation(_, body) => LowerSpawns(body);
    case Match(arms, _) =>
      LowerArmsAt(arms);
      forall a | 0 <= a < |arms| ensures ArmSpawns(LowerArms(arms)[a]) <==> ArmSpawns(arms[a]) {
        assert arms[a] < s;
        LowerSpawns(arms[a].body);
      }
    case _ =>
  }

  // ---- Seeds ----

  /** The statement is a literal quotation that calls `name` outside its literal triples. */
  ghost predicate QuotedBare(s: Option<Statement>, name: string) {
    s.Some? && s.value.Quotation? && BareCalls(s.value.body, name)
  }

  /** Like SeedsAfter, for the calls outside literal triples. */
  ghost predicate BareSeedsAfter(previous: Option<Statement>, s: seq<Statement>, name: string)
    decreases s
  {
    exists k :: 0 <= k < |s| && StatementBareSeeds(Before(previous, s, k), s[k], name)
  }

  ghost predicate StatementBareSeeds(previous: Option<Statement>, s: Statement, name: string)
    decreases s
  {
    match s
    case WordCall(n, _) => IsSpawnOrWeave(n) && QuotedBare(previous, name)
    case If(t, e, _) => BareSeedsAfter(None, t, name) || (e.Else? && BareSeedsAfter(None, e.body, name))
    case Quotation(_, body) => BareSeedsAfter(None, body, name)
    case Match(arms, _) => exists a :: 0 <= a < |arms| && ArmBareSeeds(arms[a], name)
    case _ => false
  }

  ghost predicate ArmBareSeeds(arm: MatchArm, name: string)
    decreases arm
  {
    BareSeedsAfter(None, arm.body, name)
  }

  lemma BareSeedsCons(previous: Option<Statement>, x: Statement, tail: seq<Statement>, n: string)
    ensures BareSeedsAfter(previous, [x] + tail, n) <==>
        StatementBareSeeds(previous, x, n) || BareSeedsAfter(Some(x), tail, n)
  {
    hide StatementBareSeeds;
    var s := [x] + tail;
    if k :| 0 <= k < |tail| && StatementBareSeeds(Before(Some(x), tail, k), tail[k], n) {
      assert s[k + 1] == tail[k] && Before(previous, s, k + 1) == Before(Some(x), tail, k);
    }
    if StatementBareSeeds(previous, x, n) { assert s[0] == x && Before(previous, s, 0) == previous; }
    if k :| 0 <= k < |s| && StatementBareSeeds(Before(previous, s, k), s[k], n) {
      if k > 0 { assert tail[k - 1] == s[k] && Before(Some(x), tail, k - 1) == Before(previous, s, k); }
    }
  }

  /** The statement before a list matters only through the calls of its literal quotation. */
  lemma {:induction false} LowerSeeds(previous: Option<Statement>, previous': Option<Statement>, s: seq<Statement>,
                                      n: string)
    requires QuotedBare(previous, n) <==> QuotedCall(previous', n)
    ensures SeedsAfter(previous', Lower(s), n) <==> BareSeedsAfter(previous, s, n)
    decreases s
  {
    hide CallsName, BareCalls, SeedsAfter, BareSeedsAfter, LowerStatement, StatementSeeds, StatementBareSeeds,
        QuotedCall, QuotedBare;
    Split(s);
    if |s| == 0 {
      NoSeeds(previous, previous', n);
    } else if TripleAt(s, 0) {
      var x := If(Lower(s[0].body), Else(Lower(s[1].body)), s[2].span);
      TripleSeeds(previous, previous', s, n);
      assert QuotedBare(Some(s[2]), n) == QuotedCall(Some(x), n) by { NotQuoted(s[2], x, n); }
      LowerSeeds(Some(s[2]), Some(x), s[3..], n);
      SeedsCons(previous', x, Lower(s[3..]), n);
    } else {
      BareSeedsCons(previous, s[0], s[1..], n);
      LowerStatementSeeds(previous, previous', s[0], n);
      LowerQuotedCall(s[0], n);
      LowerSeeds(Some(s[0]), Some(LowerStatement(s[0])), s[1..], n);
      SeedsCons(previous', LowerStatement(s[0]), Lower(s[1..]), n);
    }
  }

  lemma NoSeeds(previous: Option<Statement>, previous': Option<Statement>, n: string)
    ensures !BareSeedsAfter(previous, [], n) && !SeedsAfter(previous', [], n)
  {
  }

  lemma NothingQuoted(n: string)
    ensures !QuotedBare(None, n) && !QuotedCall(None, n)
  {
  }

  lemma NotQuoted(s: Statement, x: Statement, n: string)
    requires !s.Quotation? && !x.Quotation?
    ensures !QuotedBare(Some(s), n) && !QuotedCall(Some(x), n)
  {
  }

  lemma {:induction false} TripleSeeds(previous: Option<Statement>, previous': Option<Statement>, s: seq<Statement>,
                                       n: string)
    requires TripleAt(s, 0)
    ensures BareSeedsAfter(previous, s, n) <==>
            || StatementSeeds(previous', If(Lower(s[0].body), Else(Lower(s[1].body)), s[2].span), n)
            || BareSeedsAfter(Some(s[2]), s[3..], n)
    decreases s, 0
  {
    hide CallsName, BareCalls, SeedsAfter, BareSeedsAfter, Lower;
    Split(s);
    BareSeedsCons(previous, s[0], [s[1]] + ([s[2]] + s[3..]), n);
    BareSeedsCons(Some(s[0]), s[1], [s[2]] + s[3..], n);
    BareSeedsCons(Some(s[1]), s[2], s[3..], n);
    LowerSeeds(None, None, s[0].body, n);
    LowerSeeds(None, None, s[1].body, n);
  }

  lemma LowerQuotedCall(s: Statement, n: string)
    ensures QuotedCall(Some(LowerStatement(s)), n) <==> QuotedBare(Some(s), n)
  {
    hide CallsName, BareCalls, Lower;
    if s.Quotation? { LowerCalls(s.body, n); }
  }

  lemma {:induction false} LowerStatementSeeds(previous: Option<Statement>, previous': Option<Statement>,
                                               s: Statement, n: string)
    requires QuotedBare(previous, n) <==> QuotedCall(previous', n)
    ensures StatementSeeds(previous', LowerStatement(s), n) <==> StatementBareSeeds(previous, s, n)
    decreases s
  {
    hide SeedsAfter, BareSeedsAfter, Lower, QuotedCall, QuotedBare;
    NothingQuoted(n);
    match s
    case If(t, e, _) =>
      LowerSeeds(None, None, t, n);
      if e.Else? { LowerSeeds(None, None, e.body, n); }
    case Quotation(_, body) => LowerSeeds(None, None, body, n);
    case Match(arms, _) =>
      LowerArmsAt(arms);
      forall a | 0 <= a < |arms| ensures ArmSeeds(LowerArms(arms)[a], n) <==> ArmBareSeeds(arms[a], n) {
        assert arms[a] < s;
        LowerSeeds(None, None, arms[a].body, n);
      }
    case _ =>
  }

  /** Every seed but `if` is one through calls outside literal triples. */
  lemma {:induction false} BareIsSeed(previous: Option<Statement>, s: seq<Statement>, n: string)
    ensures BareSeedsAfter(previous, s, n) ==> SeedsAfter(previous, s, n)
    ensures n != "if" && SeedsAfter(previous, s, n) ==> BareSeedsAfter(previous, s, n)
    decreases s
  {
    forall k | 0 <= k < |s|
      ensures StatementBareSeeds(Before(previous, s, k), s[k], n) ==> StatementSeeds(Before(previous, s, k), s[k], n)
      ensures n != "if" && StatementSeeds(Before(previous, s, k), s[k], n) ==>
          StatementBareSeeds(Before(previous, s, k), s[k], n)
    {
      hide BareSeedsAfter, SeedsAfter;
      StatementBareIsSeed(Before(previous, s, k), s[k], n);
    }
    hide StatementSeeds, StatementBareSeeds;
  }

  lemma {:induction false} StatementBareIsSeed(previous: Option<Statement>, s: Statement, n: string)
    ensures StatementBareSeeds(previous, s, n) ==> StatementSeeds(previous, s, n)
    ensures n != "if" && StatementSeeds(previous, s, n) ==> StatementBareSeeds(previous, s, n)
    decreases s
  {
    hide BareSeedsAfter, SeedsAfter, CallsName, BareCalls;
    match s
    case WordCall(_, _) =>
      if previous.Some? && previous.value.Quotation? { BareIsCall(previous.value.body, n); }
    case If(t, e, _) =>
      BareIsSeed(None, t, n);
      if e.Else? { BareIsSeed(None, e.body, n); }
    case Quotation(_, body) => BareIsSeed(None, body, n);
    case Match(arms, _) =>
      forall a | 0 <= a < |arms|
        ensures ArmBareSeeds(arms[a], n) ==> ArmSeeds(arms[a], n)
        ensures n != "if" && ArmSeeds(arms[a], n) ==> ArmBareSeeds(arms[a], n)
      {
        assert arms[a] < s;
        BareIsSeed(None, arms[a].body, n);
      }
    case _ =>
  }

  // ---- Sites ----

  lemma {:induction false} LowerSites(s: seq<Statement>)
    ensures Sites(Lower(s)) == Sites(s)
    decreases s
  {
    hide LowerStatement;
    if |s| == 0 {
    } else if TripleAt(s, 0) {
      LowerSites(s[0].body);
      LowerSites(s[1].body);
      LowerSites(s[3..]);
      TripleSites(s);
      SitesCons(If(Lower(s[0].body), Else(Lower(s[1].body)), s[2].span), Lower(s[3..]));
    } else {
      LowerStatementSites(s[0]);
      LowerSites(s[1..]);
      SitesCons(LowerStatement(s[0]), Lower(s[1..]));
    }
  }

  lemma SitesCons(x: Statement, tail: seq<Statement>)
    ensures Sites([x] + tail) == StatementSites(x) + Sites(tail)
  {
    hide StatementSites;
    assert ([x] + tail)[1..] == tail;
  }

  lemma TripleSites(s: seq<Statement>)
    requires TripleAt(s, 0)
    ensures Sites(s) == Sites(s[0].body) + Sites(s[1].body) + Sites(s[3..])
  {
    hide Sites;
    Split(s);
    SitesCons(s[0], [s[1]] + ([s[2]] + s[3..]));
    SitesCons(s[1], [s[2]] + s[3..]);
    SitesCons(s[2], s[3..]);
    assert StatementSites(s[2]) == [];
  }

  lemma {:induction false} LowerStatementSites(s: Statement)
    ensures StatementSites(LowerStatement(s)) == StatementSites(s)
    decreases s
  {
    hide Sites, Lower;
    match s
    case If(t, e, _) =>
      LowerSites(t);
      if e.Else? { LowerSites(e.body); }
    case Quotation(_, body) => LowerSites(body);
    case Match(arms, _) => LowerArmSites(arms);
    case _ =>
  }

  lemma {:induction false} LowerArmSites(arms: seq<MatchArm>)
    ensures ArmSites(LowerArms(arms)) == ArmSites(arms)
    decreases arms
  {
    hide Sites, Lower;
    if |arms| > 0 {
      LowerSites(arms[0].body);
      LowerArmSites(arms[1..]);
      assert LowerArms(arms)[1..] == LowerArms(arms[1..]);
    }
  }

  // ---- The analyses ----

  /** No later word has the name of word k: it is the definition in force. */
  predicate InForce(words: seq<WordDef>, k: int) {
    0 <= k < |words| && forall j :: k < j < |words| ==> words[j].name != words[k].name
  }

  /** Whichever definition calls a user word named `if` does so outside its literal triples too. */
  ghost predicate IfKept(p: Program) {
    "if" in p.Names() ==>
      forall k :: InForce(p.words, k) && CallsName(p.words[k].body, "if") ==> BareCalls(p.words[k].body, "if")
  }

  /** If a user word named `if` is a seed, it is one outside literal triples too. */
  ghost predicate IfSeedKept(p: Program) {
    "if" in p.Names() && Seed(p, "if") ==> BareSeed(p, "if")
  }

  ghost predicate BareSeed(p: Program, name: string) {
    || (exists k :: 0 <= k < |p.words| && p.words[k].name == name && Spawns(p.words[k].body))
    || (name in p.Names() && exists k :: 0 <= k < |p.words| && BareSeedsAfter(None, p.words[k].body, name))
  }

  lemma SameNames(p: Program)
    ensures LowerProgram(p).Names() == p.Names()
  {
    hide Lower;
    var q := LowerProgram(p);
    forall n ensures n in q.Names() <==> n in p.Names() {
      if n in p.Names() {
        var k :| 0 <= k < |p.words| && p.words[k].name == n;
        assert q.words[k].name == n;
      }
    }
  }

  lemma {:induction false} LastDefinition(words: seq<WordDef>, n: string)
    requires exists w :: w in words && w.name == n
    ensures exists k :: InForce(words, k) && words[k].name == n
    decreases |words|
  {
    var last := |words| - 1;
    if words[last].name == n {
      assert InForce(words, last);
    } else {
      var front := words[..last];
      assert forall w :: w in words ==> w in front || w == words[last];
      LastDefinition(front, n);
      var k :| InForce(front, k) && front[k].name == n;
      assert InForce(words, k) && words[k].name == n;
    }
  }

  /** The edges out of a name before and after lowering, through its definition in force. */
  lemma EdgesCompare(p: Program, k: nat, n: string)
    requires InForce(p.words, k) && n in p.Names()
    ensures var (g, g', w) := (GraphOf(p), GraphOf(LowerProgram(p)), p.words[k].name);
            && w in g.edges && w in g'.edges
            && (n in g.edges[w] <==> CallsName(p.words[k].body, n))
            && (n in g'.edges[w] <==> BareCalls(p.words[k].body, n))
  {
    hide CallsName, BareCalls, Lower, EdgesOf;
    SameNames(p);
    EdgeIsCall(p.words, p.Names(), k, n);
    EdgeIsCall(LowerProgram(p).words, p.Names(), k, n);
    LowerCalls(p.words[k].body, n);
  }

  lemma GraphDomain(p: Program)
    ensures GraphOf(p).edges.Keys == p.Names()
    ensures forall w :: w in GraphOf(p).edges ==> GraphOf(p).edges[w] <= p.Names()
  {
    hide CallsName;
    EdgesInWords(p.words, p.Names());
  }

  /** Exactly when the call graph is the same before and after lowering. */
  lemma GraphKeptIff(p: Program)
    ensures GraphOf(LowerProgram(p)) == GraphOf(p) <==> IfKept(p)
  {
    hide CallsName, BareCalls, EdgesOf, LowerProgram;
    var (g, g') := (GraphOf(p), GraphOf(LowerProgram(p)));
    SameNames(p);
    GraphDomain(p);
    GraphDomain(LowerProgram(p));
    if g' == g && "if" in p.Names() {
      forall k | InForce(p.words, k) && CallsName(p.words[k].body, "if") ensures BareCalls(p.words[k].body, "if") {
        EdgesCompare(p, k, "if");
      }
    }
    if IfKept(p) { GraphKept(p); }
  }

  lemma GraphKept(p: Program)
    requires IfKept(p)
    ensures GraphOf(LowerProgram(p)) == GraphOf(p)
  {
    hide CallsName, BareCalls, EdgesOf, LowerProgram, IfKept;
    SameNames(p);
    GraphDomain(p);
    GraphDomain(LowerProgram(p));
    forall w | w in p.Names() ensures GraphOf(LowerProgram(p)).edges[w] == GraphOf(p).edges[w] { EdgesKept(p, w); }
    assert GraphOf(LowerProgram(p)).edges == GraphOf(p).edges;
  }

  lemma EdgesKept(p: Program, w: string)
    requires IfKept(p) && w in p.Names()
    ensures w in GraphOf(p).edges && w in GraphOf(LowerProgram(p)).edges
    ensures GraphOf(LowerProgram(p)).edges[w] == GraphOf(p).edges[w]
  {
    hide CallsName, BareCalls, EdgesOf, LowerProgram;
    SameNames(p);
    GraphDomain(p);
    GraphDomain(LowerProgram(p));
    LastDefinition(p.words, w);
    var k :| InForce(p.words, k) && p.words[k].name == w;
    forall n | n in p.Names() ensures n in GraphOf(LowerProgram(p)).edges[w] <==> n in GraphOf(p).edges[w] {
      EdgesCompare(p, k, n);
      BareIsCall(p.words[k].body, n);
    }
  }

  ghost function Lowered(words: seq<WordDef>): seq<WordDef> {
    seq(|words|, k requires 0 <= k < |words| => LowerWord(words[k]))
  }

  lemma LowerWords(words: seq<WordDef>)
    ensures LowerProgram(Program(words)).words == Lowered(words)
  {
  }

  /** The seeds of the lowered program, told on the program. */
  lemma LowerSeed(p: Program, n: string)
    ensures Seed(LowerProgram(p), n) <==> BareSeed(p, n)
    ensures BareSeed(p, n) ==> Seed(p, n)
    ensures n != "if" && Seed(p, n) ==> BareSeed(p, n)
  {
    hide Lower, Spawns, SeedsAfter, BareSeedsAfter;
    var q := LowerProgram(p);
    SameNames(p);
    forall k | 0 <= k < |p.words|
      ensures q.words[k].name == p.words[k].name
      ensures Spawns(q.words[k].body) <==> Spawns(p.words[k].body)
      ensures SeedsAfter(None, q.words[k].body, n) <==> BareSeedsAfter(None, p.words[k].body, n)
      ensures BareSeedsAfter(None, p.words[k].body, n) ==> SeedsAfter(None, p.words[k].body, n)
      ensures n != "if" && SeedsAfter(None, p.words[k].body, n) ==> BareSeedsAfter(None, p.words[k].body, n)
    {
      LowerSpawns(p.words[k].body);
      LowerSeeds(None, None, p.words[k].body, n);
      BareIsSeed(None, p.words[k].body, n);
    }
  }

  /** Exactly when the seeds are the same. */
  lemma SeedsKeptIff(p: Program)
    ensures (forall n :: Seed(LowerProgram(p), n) <==> Seed(p, n)) <==> IfSeedKept(p)
  {
    hide LowerProgram, Seed, BareSeed;
    forall n ensures n != "if" ==> (Seed(LowerProgram(p), n) <==> Seed(p, n)) { LowerSeed(p, n); }
    LowerSeed(p, "if");
    if "if" !in p.Names() { UnknownSeed(p, "if"); }
  }

  lemma UnknownSeed(p: Program, n: string)
    requires n !in p.Names()
    ensures !Seed(p, n)
  {
    hide Spawns, SeedsAfter;
    assert forall k :: 0 <= k < |p.words| ==> p.words[k].name in p.Names();
  }

  ghost predicate CooperativeBefore(p: Program, n: string) {
    Cooperative(p, GraphOf(p), n)
  }

  ghost predicate CooperativeAfter(p: Program, n: string) {
    Cooperative(LowerProgram(p), GraphOf(LowerProgram(p)), n)
  }

  /** Lowering adds no edge, and loses none but those to `if`. */
  lemma EdgesLowered(p: Program, x: string, y: string)
    ensures Edge(GraphOf(LowerProgram(p)), x, y) ==> Edge(GraphOf(p), x, y)
    ensures y != "if" && Edge(GraphOf(p), x, y) ==> Edge(GraphOf(LowerProgram(p)), x, y)
  {
    hide CallsName, BareCalls, EdgesOf, LowerProgram;
    SameNames(p);
    GraphDomain(p);
    GraphDomain(LowerProgram(p));
    if x in p.Names() && y in p.Names() {
      LastDefinition(p.words, x);
      var k :| InForce(p.words, k) && p.words[k].name == x;
      EdgesCompare(p, k, y);
      BareIsCall(p.words[k].body, y);
    }
  }

  /** Nothing becomes cooperative by lowering. */
  lemma AfterBefore(p: Program, n: string)
    requires CooperativeAfter(p, n)
    ensures CooperativeBefore(p, n)
  {
    hide LowerProgram, Seed, BareSeed, GraphOf, Edge;
    var s :| Seed(LowerProgram(p), s) && Reach(GraphOf(LowerProgram(p)), s, n);
    LowerSeed(p, s);
    var path :| IsPath(GraphOf(LowerProgram(p)), path) && path[0] == s && path[|path| - 1] == n;
    forall i | 0 <= i < |path| - 1 ensures Edge(GraphOf(p), path[i], path[i + 1]) {
      EdgesLowered(p, path[i], path[i + 1]);
    }
    assert IsPath(GraphOf(p), path);
  }

  lemma SeedIsCooperative(p: Program, g: Graph<string>, n: string)
    requires Seed(p, n)
    ensures Cooperative(p, g, n)
  {
    hide Seed, Reach;
    ReachRefl(g, n);
  }

  /** If `if` keeps its standing, every seed and every callee does. */
  lemma StandingKept(p: Program, n: string)
    requires CooperativeBefore(p, "if") ==> CooperativeAfter(p, "if")
    requires CooperativeBefore(p, n)
    ensures CooperativeAfter(p, n)
  {
    hide LowerProgram, Seed, BareSeed, GraphOf, Edge, Cooperative, Reach;
    CooperativeFrom(p, GraphOf(p), n);
    var s :| Seed(p, s) && Reach(GraphOf(p), s, n);
    SeedIsCooperative(p, GraphOf(p), s);
    LowerSeed(p, s);
    if Seed(LowerProgram(p), s) { SeedIsCooperative(LowerProgram(p), GraphOf(LowerProgram(p)), s); }
    var kept := set w | w in p.Names() + {s} && CooperativeAfter(p, w);
    forall x, y | x in kept && Edge(GraphOf(p), x, y) ensures y in kept {
      AfterBefore(p, x);
      CooperativeStep(p, GraphOf(p), x, y);
      EdgesLowered(p, x, y);
      EdgeIsNamed(p, x, y);
      if y != "if" { CooperativeStep(LowerProgram(p), GraphOf(LowerProgram(p)), x, y); }
    }
    ClosedReach(GraphOf(p), kept, s, n);
  }

  lemma EdgeIsNamed(p: Program, x: string, y: string)
    requires Edge(GraphOf(p), x, y)
    ensures y in p.Names()
  {
    hide CallsName, EdgesOf;
  }

  lemma CooperativeFrom(p: Program, g: Graph<string>, n: string)
    requires Cooperative(p, g, n)
    ensures exists s :: Seed(p, s) && Reach(g, s, n)
  {
  }

  /** Calls lead from a root, past no `if`, to a word whose definition calls `if` outside its literal triples. */
  ghost predicate LeadsToIf(p: Program, path: seq<string>) {
    && IsPath(GraphOf(p), path) && "if" !in path && Seed(p, path[0])
    && exists k :: InForce(p.words, k) && p.words[k].name == path[|path| - 1] && BareCalls(p.words[k].body, "if")
  }

  /** What makes a user word `if` cooperative and survives the lowering. */
  ghost predicate IfStillReached(p: Program) {
    "if" in p.Names() && (BareSeed(p, "if") || exists path :: LeadsToIf(p, path))
  }

  lemma SeedIsName(p: Program, n: string)
    requires BareSeed(p, n)
    ensures n in p.Names()
  {
    hide Spawns, BareSeedsAfter;
  }

  /** The standing of `if` after lowering, told on the program. */
  lemma IfStanding(p: Program)
    ensures CooperativeAfter(p, "if") <==> IfStillReached(p)
  {
    hide LowerProgram, Seed, BareSeed, GraphOf, LeadsToIf, Cooperative;
    LowerSeed(p, "if");
    if CooperativeAfter(p, "if") {
      CooperativeFrom(LowerProgram(p), GraphOf(LowerProgram(p)), "if");
      var s :| Seed(LowerProgram(p), s) && Reach(GraphOf(LowerProgram(p)), s, "if");
      if s == "if" {
        SeedIsName(p, "if");
      } else {
        var path :| IsPath(GraphOf(LowerProgram(p)), path) && path[0] == s && path[|path| - 1] == "if";
        FirstIf(p, path);
      }
    }
    if IfStillReached(p) {
      if BareSeed(p, "if") {
        SeedIsCooperative(LowerProgram(p), GraphOf(LowerProgram(p)), "if");
      } else {
        var path :| LeadsToIf(p, path);
        LeadsAfter(p, path);
      }
    }
  }

  /** The part of a path before its first `if`. */
  lemma {:induction false} FirstIf(p: Program, path: seq<string>)
    requires IsPath(GraphOf(LowerProgram(p)), path) && path[|path| - 1] == "if" && path[0] != "if"
    requires Seed(LowerProgram(p), path[0])
    ensures "if" in p.Names() && exists front :: LeadsToIf(p, front)
    decreases |path|
  {
    hide LowerProgram, Seed, BareSeed, GraphOf, Edge, CallsName, BareCalls;
    var last := |path| - 1;
    var front := path[..last];
    assert forall i :: 0 <= i < |front| ==> front[i] == path[i];
    forall i | 0 <= i < last ensures Edge(GraphOf(LowerProgram(p)), path[i], path[i + 1]) {}
    if "if" in front {
      var i :| 0 < i < |front| && front[i] == "if";
      FirstIf(p, path[..i + 1]);
    } else {
      forall i | 0 <= i < |front| - 1 ensures Edge(GraphOf(p), front[i], front[i + 1]) {
        EdgesLowered(p, front[i], front[i + 1]);
      }
      LowerSeed(p, path[0]);
      EdgeToIf(p, path[last - 1]);
      assert LeadsToIf(p, front);
    }
  }

  lemma EdgeToIf(p: Program, w: string)
    ensures Edge(GraphOf(LowerProgram(p)), w, "if") <==>
            "if" in p.Names() &&
            exists k :: InForce(p.words, k) && p.words[k].name == w && BareCalls(p.words[k].body, "if")
  {
    hide LowerProgram, CallsName, BareCalls, EdgesOf;
    SameNames(p);
    GraphDomain(p);
    GraphDomain(LowerProgram(p));
    if "if" in p.Names() {
      forall k | InForce(p.words, k) && p.words[k].name == w
        ensures Edge(GraphOf(LowerProgram(p)), w, "if") <==> BareCalls(p.words[k].body, "if")
      {
        EdgesCompare(p, k, "if");
      }
      if w in p.Names() { LastDefinition(p.words, w); }
    }
  }

  lemma LeadsAfter(p: Program, path: seq<string>)
    requires LeadsToIf(p, path) && "if" in p.Names()
    ensures CooperativeAfter(p, "if")
  {
    hide LowerProgram, Seed, BareSeed, GraphOf, Edge, BareCalls;
    var longer := path + ["if"];
    LowerSeed(p, path[0]);
    EdgeToIf(p, path[|path| - 1]);
    forall i | 0 <= i < |path| ensures Edge(GraphOf(LowerProgram(p)), longer[i], longer[i + 1]) {
      if i < |path| - 1 {
        assert Edge(GraphOf(p), path[i], path[i + 1]);
        EdgesLowered(p, path[i], path[i + 1]);
      }
    }
    assert IsPath(GraphOf(LowerProgram(p)), longer) && longer[0] == path[0] && longer[|longer| - 1] == "if";
  }

  /** A cooperative user word `if` is one for a reason that survives. */
  ghost predicate IfStandingKept(p: Program) {
    CooperativeBefore(p, "if") ==> IfStillReached(p)
  }

  /** Exactly when the cooperative set is the same before and after lowering. */
  lemma CooperativeKeptIff(p: Program)
    ensures (forall n :: CooperativeAfter(p, n) <==> CooperativeBefore(p, n)) <==> IfStandingKept(p)
  {
    hide CooperativeBefore, CooperativeAfter, IfStillReached;
    IfStanding(p);
    if IfStandingKept(p) {
      forall n ensures CooperativeAfter(p, n) <==> CooperativeBefore(p, n) {
        if CooperativeAfter(p, n) { AfterBefore(p, n); }
        if CooperativeBefore(p, n) { StandingKept(p, n); }
      }
    }
  }

  /** The conditions for the graph and the seeds are more than enough. */
  lemma KeptIsStanding(p: Program)
    requires IfKept(p) && IfSeedKept(p)
    ensures IfStandingKept(p)
  {
    hide LowerProgram, Reach, Seed, GraphOf, IfKept, IfSeedKept, IfStillReached;
    GraphKeptIff(p);
    SeedsKeptIff(p);
    IfStanding(p);
  }

  lemma LowerCooperative(p: Program, n: string)
    requires IfStandingKept(p)
    ensures CooperativeAfter(p, n) <==> CooperativeBefore(p, n)
  {
    hide CooperativeBefore, CooperativeAfter, IfStandingKept;
    CooperativeKeptIff(p);
  }

  /** A cooperative word with a `chan.yield` site is cooperative after lowering too. */
  ghost predicate YielderKept(p: Program, w: WordDef) {
    CooperativeBefore(p, w.name) && |Sites(w.body)| > 0 ==> CooperativeAfter(p, w.name)
  }

  /** Lowering only adds findings, and adds none exactly when every yielding word keeps its standing. */
  lemma {:induction false} FindingsCompare(p: Program, words: seq<WordDef>)
    ensures |Findings(LowerProgram(p), Lowered(words))| >= |Findings(p, words)|
    ensures Findings(LowerProgram(p), Lowered(words)) == Findings(p, words) <==>
            forall k :: 0 <= k < |words| ==> YielderKept(p, words[k])
    decreases |words|
  {
    hide Lower, Cooperative, Sites, GraphOf, Report, YielderKept;
    if |words| > 0 {
      var rest := words[1..];
      FindingsCompare(p, rest);
      assert Lowered(words)[1..] == Lowered(rest);
      OneWord(p, words[0]);
      assert (forall k :: 0 <= k < |words| ==> YielderKept(p, words[k])) <==>
             YielderKept(p, words[0]) && forall k :: 0 <= k < |rest| ==> YielderKept(p, rest[k]) by {
        assert forall k :: 0 <= k < |rest| ==> rest[k] == words[k + 1];
        assert forall k :: 0 < k < |words| ==> words[k] == rest[k - 1];
      }
      var (a, a') := (OneWordFindings(p, words[0]), OneWordFindings(LowerProgram(p), LowerWord(words[0])));
      var (r, r') := (Findings(p, rest), Findings(LowerProgram(p), Lowered(rest)));
      if a' + r' == a + r { SamePrefix(a, a', r, r'); }
    }
  }

  lemma SamePrefix<T>(a: seq<T>, a': seq<T>, r: seq<T>, r': seq<T>)
    requires a' + r' == a + r && |a'| >= |a| && |r'| >= |r|
    ensures a' == a && r' == r
  {
    assert |a' + r'| == |a'| + |r'| && |a + r| == |a| + |r|;
    assert a' == (a' + r')[..|a'|] && a == (a + r)[..|a|];
    assert r' == (a' + r')[|a'|..] && r == (a + r)[|a|..];
  }

  /** What one word adds to the findings. */
  ghost function OneWordFindings(p: Program, w: WordDef): seq<Diagnostic> {
    if Cooperative(p, GraphOf(p), w.name) then [] else Report(w.name, Sites(w.body))
  }

  lemma OneWord(p: Program, w: WordDef)
    ensures var (a, a') := (OneWordFindings(p, w), OneWordFindings(LowerProgram(p), LowerWord(w)));
            |a'| >= |a| && (a' == a <==> YielderKept(p, w))
  {
    hide Lower, Cooperative, Sites, GraphOf, LowerProgram;
    LowerSites(w.body);
    if CooperativeAfter(p, w.name) { AfterBefore(p, w.name); }
  }

  /** Exactly when the lint reports the same findings, in the same order, before and after lowering. */
  lemma LintAgreesIff(p: Program)
    ensures Findings(LowerProgram(p), LowerProgram(p).words) == Findings(p, p.words) <==>
            forall k :: 0 <= k < |p.words| ==> YielderKept(p, p.words[k])
  {
    hide Lower, Findings, YielderKept;
    FindingsCompare(p, p.words);
    LowerWords(p.words);
  }

  /** It does if the cooperative set is the same. */
  lemma LintAgrees(p: Program)
    requires IfStandingKept(p)
    ensures Findings(LowerProgram(p), LowerProgram(p).words) == Findings(p, p.words)
  {
    hide LowerProgram, Findings, CooperativeBefore, CooperativeAfter, Sites, IfStandingKept;
    CooperativeKeptIff(p);
    assert forall k :: 0 <= k < |p.words| ==> YielderKept(p, p.words[k]);
    LintAgreesIff(p);
  }

  /** The recursion analysis gives the same answers before and after lowering. */
  lemma RecursionAgrees(p: Program, g: CallGraph, g': CallGraph, a: string, b: string)
    requires IfKept(p)
    requires g.Exact() && g.AsGraph() == GraphOf(p)
    requires g'.Exact() && g'.AsGraph() == GraphOf(LowerProgram(p))
    ensures g.AreMutuallyRecursive(a, b) <==> g'.AreMutuallyRecursive(a, b)
    ensures g.IsRecursive(a) <==> g'.IsRecursive(a)
    ensures g.IsSelfRecursive(a) <==> g'.IsSelfRecursive(a)
  {
    hide GraphOf, Calls, IsScc, Recursive, LowerProgram, IfKept;
    GraphKeptIff(p);
    MutualRecursionIsExact(g, a, b);
    MutualRecursionIsExact(g', a, b);
    RecursionIsExact(g, a);
    RecursionIsExact(g', a);
  }

  /** A program without a user word named `if` meets both conditions. */
  lemma NoWordNamedIf(p: Program)
    requires "if" !in p.Names()
    ensures IfKept(p) && IfSeedKept(p)
  {
  }

  /** With one the graph can lose an edge: `if: ;  w: [ ] [ ] if ;`. */
  lemma WordNamedIfCounterexample()
    ensures var p := Program([WordDef("if", []),
        WordDef("w", [Quotation(0, []), Quotation(1, []), WordCall("if", None)])]);
            Edge(GraphOf(p), "w", "if") && !Edge(GraphOf(LowerProgram(p)), "w", "if")
  {
    hide CallsName, EdgesOf, LowerProgram;
    var body := [Quotation(0, []), Quotation(1, []), WordCall("if", None)];
    var p := Program([WordDef("if", []), WordDef("w", body)]);
    assert StatementCalls(body[2], "if");
    assert CallsName(body, "if") by { OneCall(body, 2, "if"); }
    assert TripleAt(body, 0) && body[3..] == [];
    BareTriple(body, "if");
    NoCalls("if");
    assert p.words[0].name == "if" && p.words[1].name == "w" && InForce(p.words, 1);
    SameNames(p);
    EdgesCompare(p, 1, "if");
  }

  lemma OneCall(s: seq<Statement>, k: nat, n: string)
    requires k < |s| && StatementCalls(s[k], n)
    ensures CallsName(s, n)
  {
  }
}
