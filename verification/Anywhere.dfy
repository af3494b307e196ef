/** What "anywhere inside" means, once for all: the lists nested in a list of statements. What the
    passes look for at any depth is measured against it. */
module Anywhere {
  import opened Ast
  import opened Wrappers
  import opened Reachability
  import opened Normalize
  import opened CallGraph
  import opened ChanYieldLint
  import opened LintAgreement

  /** The list itself, or one nested in it: a quotation's body, a branch, an arm's body. */
  ghost predicate Inside(inner: seq<Statement>, outer: seq<Statement>)
    decreases outer
  {
    inner == outer || exists k :: 0 <= k < |outer| && InsideStatement(inner, outer[k])
  }

  ghost predicate InsideStatement(inner: seq<Statement>, s: Statement)
    decreases s
  {
    match s
    case If(t, e, _) => Inside(inner, t) || (e.Else? && Inside(inner, e.body))
    case Quotation(_, body) => Inside(inner, body)
    case Match(arms, _) => exists a :: 0 <= a < |arms| && InsideArm(inner, arms[a])
    case _ => false
  }

  ghost predicate InsideArm(inner: seq<Statement>, arm: MatchArm)
    decreases arm
  {
    Inside(inner, arm.body)
  }

  /** A position of some nested list has the property. */
  ghost predicate Somewhere(s: seq<Statement>, p: (seq<Statement>, nat) -> bool) {
    exists t, k: nat :: Inside(t, s) && k < |t| && p(t, k)
  }

  ghost predicate SomewhereIn(s: Statement, p: (seq<Statement>, nat) -> bool) {
    exists t, k: nat :: InsideStatement(t, s) && k < |t| && p(t, k)
  }

  lemma Unfold(s: seq<Statement>, p: (seq<Statement>, nat) -> bool)
    ensures Somewhere(s, p) <==> exists k: nat :: k < |s| && (p(s, k) || SomewhereIn(s[k], p))
  {
    hide InsideStatement;
    if t, j: nat :| Inside(t, s) && j < |t| && p(t, j) {
      if t != s {
        var k :| 0 <= k < |s| && InsideStatement(t, s[k]);
        assert SomewhereIn(s[k], p);
      }
    }
    if k: nat :| k < |s| && p(s, k) { assert Inside(s, s); }
    if k: nat :| k < |s| && SomewhereIn(s[k], p) {
      var t, j: nat :| InsideStatement(t, s[k]) && j < |t| && p(t, j);
      assert Inside(t, s);
    }
  }

  lemma UnfoldStatement(s: Statement, p: (seq<Statement>, nat) -> bool)
    ensures SomewhereIn(s, p) <==>
            match s
            case If(t, e, _) => Somewhere(t, p) || (e.Else? && Somewhere(e.body, p))
            case Quotation(_, body) => Somewhere(body, p)
            case Match(arms, _) => exists a :: 0 <= a < |arms| && Somewhere(arms[a].body, p)
            case _ => false
  {
    hide Inside;
    match s
    case Match(arms, _) =>
      forall a | 0 <= a < |arms| ensures forall t :: InsideArm(t, arms[a]) <==> Inside(t, arms[a].body) {}
      if a :| 0 <= a < |arms| && Somewhere(arms[a].body, p) {
        var t, k: nat :| Inside(t, arms[a].body) && k < |t| && p(t, k);
        assert InsideArm(t, arms[a]) && InsideStatement(t, s);
      }
    case _ =>
  }

  // ---- Calls ----

  predicate CallAt(t: seq<Statement>, k: nat, n: string) {
    k < |t| && t[k].WordCall? && t[k].name == n
  }

  function CallOf(n: string): (seq<Statement>, nat) -> bool {
    (t: seq<Statement>, k: nat) => CallAt(t, k, n)
  }

  /** What the call graph takes for a call. */
  lemma {:induction false} CallsIff(s: seq<Statement>, n: string)
    ensures CallsName(s, n) <==> Somewhere(s, CallOf(n))
    decreases s
  {
    Unfold(s, CallOf(n));
    forall k: nat | k < |s| ensures StatementCalls(s[k], n) <==> CallOf(n)(s, k) || SomewhereIn(s[k], CallOf(n)) {
      hide CallsName;
      StatementCallsIff(s[k], n);
    }
    hide StatementCalls, Somewhere, SomewhereIn;
  }

  lemma {:induction false} StatementCallsIff(s: Statement, n: string)
    ensures StatementCalls(s, n) <==> (s.WordCall? && s.name == n) || SomewhereIn(s, CallOf(n))
    decreases s
  {
    hide CallsName, Somewhere;
    UnfoldStatement(s, CallOf(n));
    hide SomewhereIn;
    match s
    case If(t, e, _) =>
      CallsIff(t, n);
      if e.Else? { CallsIff(e.body, n); }
    case Quotation(_, body) => CallsIff(body, n);
    case Match(arms, _) =>
      forall a | 0 <= a < |arms| ensures ArmCalls(arms[a], n) <==> Somewhere(arms[a].body, CallOf(n)) {
        assert arms[a] < s;
        CallsIff(arms[a].body, n);
      }
    case _ =>
  }

  predicate BareAt(t: seq<Statement>, k: nat, n: string) {
    CallAt(t, k, n) && !EndsTriple(t, k)
  }

  function BareOf(n: string): (seq<Statement>, nat) -> bool {
    (t: seq<Statement>, k: nat) => BareAt(t, k, n)
  }

  /** The calls that are not the `if` of a literal triple of their own list. */
  lemma {:induction false} BareIff(s: seq<Statement>, n: string)
    ensures BareCalls(s, n) <==> Somewhere(s, BareOf(n))
    decreases s
  {
    Unfold(s, BareOf(n));
    forall k: nat | k < |s|
      ensures !EndsTriple(s, k) && StatementBareCalls(s[k], n) <==> BareOf(n)(s, k) || SomewhereIn(s[k], BareOf(n))
    {
      hide BareCalls;
      StatementBareIff(s[k], n);
      UnfoldStatement(s[k], BareOf(n));
    }
    hide StatementBareCalls, Somewhere, SomewhereIn;
  }

  lemma {:induction false} StatementBareIff(s: Statement, n: string)
    ensures StatementBareCalls(s, n) <==> (s.WordCall? && s.name == n) || SomewhereIn(s, BareOf(n))
    decreases s
  {
    hide BareCalls, Somewhere;
    UnfoldStatement(s, BareOf(n));
    hide SomewhereIn;
    match s
    case If(t, e, _) =>
      BareIff(t, n);
      if e.Else? { BareIff(e.body, n); }
    case Quotation(_, body) => BareIff(body, n);
    case Match(arms, _) =>
      forall a | 0 <= a < |arms| ensures ArmBareCalls(arms[a], n) <==> Somewhere(arms[a].body, BareOf(n)) {
        assert arms[a] < s;
        BareIff(arms[a].body, n);
      }
    case _ =>
  }

  // ---- Spawns and seeds ----

  predicate SpawnAt(t: seq<Statement>, k: nat) {
    CallAt(t, k, "strand.spawn") || CallAt(t, k, "strand.weave")
  }

  function SpawnOf(): (seq<Statement>, nat) -> bool {
    (t: seq<Statement>, k: nat) => SpawnAt(t, k)
  }

  lemma {:induction false} SpawnsIff(s: seq<Statement>)
    ensures Spawns(s) <==> Somewhere(s, SpawnOf())
    decreases s
  {
    Unfold(s, SpawnOf());
    forall k: nat | k < |s| ensures StatementSpawns(s[k]) <==> SpawnOf()(s, k) || SomewhereIn(s[k], SpawnOf()) {
      hide Spawns;
      StatementSpawnsIff(s[k]);
    }
    hide StatementSpawns, Somewhere, SomewhereIn;
  }

  lemma {:induction false} StatementSpawnsIff(s: Statement)
    ensures StatementSpawns(s) <==>
              (s.WordCall? && (s.name == "strand.spawn" || s.name == "strand.weave")) || SomewhereIn(s, SpawnOf())
    decreases s
  {
    hide Spawns, Somewhere;
    UnfoldStatement(s, SpawnOf());
    hide SomewhereIn;
    match s
    case If(t, e, _) =>
      SpawnsIff(t);
      if e.Else? { SpawnsIff(e.body); }
    case Quotation(_, body) => SpawnsIff(body);
    case Match(arms, _) =>
      forall a | 0 <= a < |arms| ensures ArmSpawns(arms[a]) <==> Somewhere(arms[a].body, SpawnOf()) {
        assert arms[a] < s;
        SpawnsIff(arms[a].body);
      }
    case _ =>
  }

  /** A spawn or weave directly after a literal quotation in which the name is called. */
  ghost predicate SeedAt(t: seq<Statement>, k: nat, n: string) {
    SpawnAt(t, k) && k > 0 && t[k - 1].Quotation? && Somewhere(t[k - 1].body, CallOf(n))
  }

  ghost function SeedOf(n: string): (seq<Statement>, nat) -> bool {
    (t: seq<Statement>, k: nat) => SeedAt(t, k, n)
  }

  lemma SeedsIff(s: seq<Statement>, n: string)
    ensures SeedsAfter(None, s, n) <==> Somewhere(s, SeedOf(n))
  {
    SeedsAfterIff(None, s, n);
  }

  lemma {:induction false} SeedsAfterIff(previous: Option<Statement>, s: seq<Statement>, n: string)
    ensures SeedsAfter(previous, s, n) <==>
              Somewhere(s, SeedOf(n)) || (SpawnAt(s, 0) && QuotedCall(previous, n))
    decreases s
  {
    Unfold(s, SeedOf(n));
    forall k: nat | k < |s|
      ensures StatementSeeds(Before(previous, s, k), s[k], n) <==>
                SeedOf(n)(s, k) || SomewhereIn(s[k], SeedOf(n)) || (k == 0 && SpawnAt(s, 0) && QuotedCall(previous, n))
    {
      hide SeedsAfter, CallsName;
      StatementSeedsIff(Before(previous, s, k), s[k], n);
      if k > 0 && s[k - 1].Quotation? { CallsIff(s[k - 1].body, n); }
    }
    hide StatementSeeds, Somewhere, SomewhereIn, CallsName, QuotedCall, SeedOf;
  }

  lemma {:induction false} StatementSeedsIff(previous: Option<Statement>, s: Statement, n: string)
    ensures StatementSeeds(previous, s, n) <==>
              || (s.WordCall? && (s.name == "strand.spawn" || s.name == "strand.weave") && QuotedCall(previous, n))
              || SomewhereIn(s, SeedOf(n))
    decreases s
  {
    hide SeedsAfter, Somewhere, QuotedCall, SeedOf;
    UnfoldStatement(s, SeedOf(n));
    hide SomewhereIn;
    NothingQuoted(n);
    match s
    case If(t, e, _) =>
      SeedsAfterIff(None, t, n);
      if e.Else? { SeedsAfterIff(None, e.body, n); }
    case Quotation(_, body) => SeedsAfterIff(None, body, n);
    case Match(arms, _) =>
      forall a | 0 <= a < |arms| ensures ArmSeeds(arms[a], n) <==> Somewhere(arms[a].body, SeedOf(n)) {
        assert arms[a] < s;
        SeedsAfterIff(None, arms[a].body, n);
      }
    case _ =>
  }

  /** The roots of the cooperative set. */
  lemma SeedIff(p: Program, n: string)
    ensures Seed(p, n) <==>
            || (exists k :: 0 <= k < |p.words| && p.words[k].name == n && Somewhere(p.words[k].body, SpawnOf()))
            || (n in p.Names() && exists k :: 0 <= k < |p.words| && Somewhere(p.words[k].body, SeedOf(n)))
  {
    hide Spawns, SeedsAfter, Somewhere, SpawnOf, SeedOf;
    forall k | 0 <= k < |p.words|
      ensures Spawns(p.words[k].body) <==> Somewhere(p.words[k].body, SpawnOf())
      ensures SeedsAfter(None, p.words[k].body, n) <==> Somewhere(p.words[k].body, SeedOf(n))
    {
      SpawnsIff(p.words[k].body);
      SeedsIff(p.words[k].body, n);
    }
  }

  // ---- Literal triples ----

  function TripleOf(): (seq<Statement>, nat) -> bool {
    (t: seq<Statement>, k: nat) => TripleAt(t, k)
  }

  /** Normal is: no nested list has a triple anywhere. */
  lemma {:induction false} NormalIff(s: seq<Statement>)
    ensures Normal(s) <==> !Somewhere(s, TripleOf())
    decreases s
  {
    Unfold(s, TripleOf());
    forall k: nat | k < |s| ensures NormalStatement(s[k]) <==> !SomewhereIn(s[k], TripleOf()) {
      hide Normal;
      NormalStatementIff(s[k]);
    }
    hide NormalStatement, Somewhere, SomewhereIn;
  }

  lemma {:induction false} NormalStatementIff(s: Statement)
    ensures NormalStatement(s) <==> !SomewhereIn(s, TripleOf())
    decreases s
  {
    hide Normal, Somewhere;
    UnfoldStatement(s, TripleOf());
    hide SomewhereIn;
    match s
    case If(t, e, _) =>
      NormalIff(t);
      if e.Else? { NormalIff(e.body); }
    case Quotation(_, body) => NormalIff(body);
    case Match(arms, _) =>
      forall a | 0 <= a < |arms| ensures NormalArm(arms[a]) <==> !Somewhere(arms[a].body, TripleOf()) {
        assert arms[a] < s;
        NormalIff(arms[a].body);
      }
    case _ =>
  }

  // ---- The code in its order ----

  /** What is written, but for the brackets of quotations: a conditional statement is its parts and
      then its `if`, as the triple that it may come from is. */
  datatype Mark = Called(name: string, span: Option<Span>) | Matched(span: Option<Span>) | Literal(s: Statement)

  function Marks(s: seq<Statement>): seq<Mark>
    decreases s
  {
    if |s| == 0 then [] else StatementMarks(s[0]) + Marks(s[1..])
  }

  function StatementMarks(s: Statement): seq<Mark>
    decreases s
  {
    match s
    case WordCall(n, span) => [Called(n, span)]
    case If(t, e, span) => Marks(t) + (if e.Else? then Marks(e.body) else []) + [Called("if", span)]
    case Quotation(_, body) => Marks(body)
    case Match(arms, span) => ArmMarks(arms) + [Matched(span)]
    case _ => [Literal(s)]
  }

  function ArmMarks(arms: seq<MatchArm>): seq<Mark>
    decreases arms
  {
    if |arms| == 0 then [] else OneArmMarks(arms[0]) + ArmMarks(arms[1..])
  }

  function OneArmMarks(arm: MatchArm): seq<Mark>
    decreases arm
  {
    Marks(arm.body)
  }

  lemma MarksCons(x: Statement, tail: seq<Statement>)
    ensures Marks([x] + tail) == StatementMarks(x) + Marks(tail)
  {
    hide StatementMarks;
    assert ([x] + tail)[1..] == tail;
  }

  lemma TripleMarks(s: seq<Statement>)
    requires TripleAt(s, 0)
    ensures Marks(s) == Marks(s[0].body) + Marks(s[1].body) + [Called("if", s[2].span)] + Marks(s[3..])
  {
    hide Marks;
    Split(s);
    MarksCons(s[0], [s[1]] + ([s[2]] + s[3..]));
    MarksCons(s[1], [s[2]] + s[3..]);
    MarksCons(s[2], s[3..]);
  }

  /** Lowering keeps every call, literal and span, in order. */
  lemma {:induction false} LowerMarks(s: seq<Statement>)
    ensures Marks(Lower(s)) == Marks(s)
    decreases s
  {
    hide LowerStatement;
    if |s| == 0 {
    } else if TripleAt(s, 0) {
      LowerMarks(s[0].body);
      LowerMarks(s[1].body);
      LowerMarks(s[3..]);
      TripleMarks(s);
      MarksCons(If(Lower(s[0].body), Else(Lower(s[1].body)), s[2].span), Lower(s[3..]));
    } else {
      LowerStatementMarks(s[0]);
      LowerMarks(s[1..]);
      MarksCons(LowerStatement(s[0]), Lower(s[1..]));
    }
  }

  lemma {:induction false} LowerStatementMarks(s: Statement)
    ensures StatementMarks(LowerStatement(s)) == StatementMarks(s)
    decreases s
  {
    hide Marks, Lower;
    match s
    case If(t, e, _) =>
      LowerMarks(t);
      if e.Else? { LowerMarks(e.body); }
    case Quotation(_, body) => LowerMarks(body);
    case Match(arms, _) => LowerArmMarks(arms);
    case _ =>
  }

  lemma {:induction false} LowerArmMarks(arms: seq<MatchArm>)
    ensures ArmMarks(LowerArms(arms)) == ArmMarks(arms)
    decreases arms
  {
    hide Marks, Lower;
    if |arms| > 0 {
      LowerMarks(arms[0].body);
      LowerArmMarks(arms[1..]);
      assert LowerArms(arms)[1..] == LowerArms(arms[1..]);
    }
  }

  // ---- chan.yield sites ----

  function YieldSpans(marks: seq<Mark>): seq<Option<Span>> {
    if marks == [] then []
    else (if marks[0].Called? && marks[0].name == "chan.yield" then [marks[0].span] else []) + YieldSpans(marks[1..])
  }

  lemma {:induction false} YieldSpansConcat(a: seq<Mark>, b: seq<Mark>)
    ensures YieldSpans(a + b) == YieldSpans(a) + YieldSpans(b)
    decreases a
  {
    if a == [] {
      assert a + b == b;
    } else {
      assert (a + b)[1..] == a[1..] + b;
      YieldSpansConcat(a[1..], b);
    }
  }

  /** The sites are the spans of the `chan.yield` calls, each once, in the order of the code. */
  lemma {:induction false} SitesAreMarks(s: seq<Statement>)
    ensures Sites(s) == YieldSpans(Marks(s))
    decreases s
  {
    if |s| > 0 {
      hide StatementMarks, StatementSites;
      StatementSitesAreMarks(s[0]);
      SitesAreMarks(s[1..]);
      YieldSpansConcat(StatementMarks(s[0]), Marks(s[1..]));
    }
  }

  lemma {:induction false} StatementSitesAreMarks(s: Statement)
    ensures StatementSites(s) == YieldSpans(StatementMarks(s))
    decreases s
  {
    hide Marks, Sites;
    match s
    case If(t, e, span) =>
      SitesAreMarks(t);
      if e.Else? { SitesAreMarks(e.body); }
      var rest := if e.Else? then Marks(e.body) else [];
      YieldSpansConcat(Marks(t), rest);
      YieldSpansConcat(Marks(t) + rest, [Called("if", span)]);
    case Quotation(_, body) => SitesAreMarks(body);
    case Match(arms, span) =>
      ArmSitesAreMarks(arms);
      YieldSpansConcat(ArmMarks(arms), [Matched(span)]);
    case _ =>
  }

  lemma {:induction false} ArmSitesAreMarks(arms: seq<MatchArm>)
    ensures ArmSites(arms) == YieldSpans(ArmMarks(arms))
    decreases arms
  {
    hide Marks, Sites;
    if |arms| > 0 {
      SitesAreMarks(arms[0].body);
      ArmSitesAreMarks(arms[1..]);
      YieldSpansConcat(OneArmMarks(arms[0]), ArmMarks(arms[1..]));
    }
  }

  function SiteOf(span: Option<Span>): (seq<Statement>, nat) -> bool {
    (t: seq<Statement>, k: nat) => k < |t| && t[k] == WordCall("chan.yield", span)
  }

  /** They are found at any depth. */
  lemma {:induction false} SitesIff(s: seq<Statement>, span: Option<Span>)
    ensures span in Sites(s) <==> Somewhere(s, SiteOf(span))
    decreases s
  {
    Unfold(s, SiteOf(span));
    SitesByStatement(s, span);
    forall k: nat | k < |s|
      ensures span in StatementSites(s[k]) <==> SiteOf(span)(s, k) || SomewhereIn(s[k], SiteOf(span))
    {
      hide Sites;
      StatementSitesIff(s[k], span);
    }
    hide StatementSites, Somewhere, SomewhereIn, Sites;
  }

  lemma {:induction false} SitesByStatement(s: seq<Statement>, span: Option<Span>)
    ensures span in Sites(s) <==> exists k: nat :: k < |s| && span in StatementSites(s[k])
    decreases |s|
  {
    hide StatementSites;
    if |s| > 0 {
      SitesByStatement(s[1..], span);
      if k: nat :| k < |s[1..]| && span in StatementSites(s[1..][k]) { assert span in StatementSites(s[k + 1]); }
      if k: nat :| k < |s| && span in StatementSites(s[k]) {
        assert k > 0 ==> span in StatementSites(s[1..][k - 1]);
      }
    }
  }

  lemma {:induction false} SitesByArm(arms: seq<MatchArm>, span: Option<Span>)
    ensures span in ArmSites(arms) <==> exists a: nat :: a < |arms| && span in Sites(arms[a].body)
    decreases |arms|
  {
    hide Sites;
    if |arms| > 0 {
      SitesByArm(arms[1..], span);
      if a: nat :| a < |arms[1..]| && span in Sites(arms[1..][a].body) { assert span in Sites(arms[a + 1].body); }
      if a: nat :| a < |arms| && span in Sites(arms[a].body) { assert a > 0 ==> span in Sites(arms[1..][a - 1].body); }
    }
  }

  lemma {:induction false} StatementSitesIff(s: Statement, span: Option<Span>)
    ensures span in StatementSites(s) <==> s == WordCall("chan.yield", span) || SomewhereIn(s, SiteOf(span))
    decreases s
  {
    hide Sites, Somewhere;
    UnfoldStatement(s, SiteOf(span));
    hide SomewhereIn;
    match s
    case If(t, e, _) =>
      SitesIff(t, span);
      if e.Else? { SitesIff(e.body, span); }
    case Quotation(_, body) => SitesIff(body, span);
    case Match(arms, _) =>
      SitesByArm(arms, span);
      forall a | 0 <= a < |arms| ensures span in Sites(arms[a].body) <==> Somewhere(arms[a].body, SiteOf(span)) {
        assert arms[a] < s;
        SitesIff(arms[a].body, span);
      }
    case _ =>
  }

  /** A diagnostic names a word that is not cooperative and a `chan.yield` call anywhere in it, and
      every such call has one. */
  lemma {:induction false} FindingsIff(p: Program, words: seq<WordDef>, d: Diagnostic)
    ensures d in Findings(p, words) <==>
            exists k :: 0 <= k < |words| && words[k].name == d.wordName && !Cooperative(p, GraphOf(p), words[k].name)
                        && Somewhere(words[k].body, SiteOf(d.span))
    decreases |words|
  {
    hide Cooperative, Sites, GraphOf, Somewhere, SiteOf;
    if |words| > 0 {
      var rest := words[1..];
      FindingsIff(p, rest, d);
      SitesIff(words[0].body, d.span);
      ReportIff(words[0].name, Sites(words[0].body), d);
      assert forall k :: 0 <= k < |rest| ==> rest[k] == words[k + 1];
      assert forall k :: 0 < k < |words| ==> words[k] == rest[k - 1];
    }
  }

  /** Word by word, in the order of the program. */
  lemma {:induction false} FindingsInOrder(p: Program, a: seq<WordDef>, b: seq<WordDef>)
    ensures Findings(p, a + b) == Findings(p, a) + Findings(p, b)
    decreases a
  {
    hide Cooperative, Sites, GraphOf, Report;
    if a == [] {
      assert a + b == b;
    } else {
      assert (a + b)[1..] == a[1..] + b;
      FindingsInOrder(p, a[1..], b);
    }
  }

  lemma ReportIff(name: string, sites: seq<Option<Span>>, d: Diagnostic)
    ensures d in Report(name, sites) <==> d.wordName == name && d.span in sites
  {
    if d.wordName == name && d.span in sites {
      var k :| 0 <= k < |sites| && sites[k] == d.span;
      assert Report(name, sites)[k] == d;
    }
  }

  // ---- Lowering, list by list ----

  /** Nested in one of the statements. */
  ghost predicate Within(t: seq<Statement>, s: seq<Statement>) {
    exists k :: 0 <= k < |s| && InsideStatement(t, s[k])
  }

  lemma WithinCons(t: seq<Statement>, x: Statement, tail: seq<Statement>)
    ensures Within(t, [x] + tail) <==> InsideStatement(t, x) || Within(t, tail)
  {
    hide InsideStatement;
    var s := [x] + tail;
    if k :| 0 <= k < |tail| && InsideStatement(t, tail[k]) { assert s[k + 1] == tail[k]; }
    if InsideStatement(t, x) { assert s[0] == x; }
  }

  /** The lists nested in the lowered list are the lowered nested lists. */
  ghost predicate LoweredWithin(t': seq<Statement>, s: seq<Statement>) {
    exists t :: Within(t, s) && t' == Lower(t)
  }

  ghost predicate LoweredIn(t': seq<Statement>, s: Statement) {
    exists t :: InsideStatement(t, s) && t' == Lower(t)
  }

  lemma LoweredWithinCons(t': seq<Statement>, x: Statement, tail: seq<Statement>)
    ensures LoweredWithin(t', [x] + tail) <==> LoweredIn(t', x) || LoweredWithin(t', tail)
  {
    hide InsideStatement, Within, Lower;
    forall t ensures Within(t, [x] + tail) <==> InsideStatement(t, x) || Within(t, tail) { WithinCons(t, x, tail); }
  }

  ghost predicate LoweredInside(t': seq<Statement>, s: seq<Statement>) {
    exists t :: Inside(t, s) && t' == Lower(t)
  }

  lemma InsideOrWithin(t: seq<Statement>, s: seq<Statement>)
    ensures Inside(t, s) <==> t == s || Within(t, s)
    ensures LoweredInside(t, s) <==> t == Lower(s) || LoweredWithin(t, s)
  {
    hide InsideStatement, Lower;
    assert forall x :: Inside(x, s) <==> x == s || Within(x, s);
    if t == Lower(s) { assert Inside(s, s); }
  }

  lemma {:induction false} LowerInside(t': seq<Statement>, s: seq<Statement>)
    ensures Inside(t', Lower(s)) <==> LoweredInside(t', s)
    decreases s, 2
  {
    hide Lower, Inside, Within, LoweredInside, LoweredWithin;
    LowerWithin(t', s);
    InsideOrWithin(t', Lower(s));
    InsideOrWithin(t', s);
  }

  lemma {:induction false} LowerWithin(t': seq<Statement>, s: seq<Statement>)
    ensures Within(t', Lower(s)) <==> LoweredWithin(t', s)
    decreases s, 1
  {
    hide Inside, InsideStatement, Within, LoweredWithin, LoweredIn, LowerStatement, Lower;
    Split(s);
    if |s| == 0 {
      NothingWithin(t');
    } else if TripleAt(s, 0) {
      var x := If(Lower(s[0].body), Else(Lower(s[1].body)), s[2].span);
      LowerTriple(s);
      WithinCons(t', x, Lower(s[3..]));
      LowerWithin(t', s[3..]);
      LoweredWithinCons(t', s[0], [s[1]] + ([s[2]] + s[3..]));
      LoweredWithinCons(t', s[1], [s[2]] + s[3..]);
      LoweredWithinCons(t', s[2], s[3..]);
      TripleInside(t', s);
    } else {
      LowerSingle(s);
      WithinCons(t', LowerStatement(s[0]), Lower(s[1..]));
      LowerWithin(t', s[1..]);
      LoweredWithinCons(t', s[0], s[1..]);
      LowerInStatement(t', s[0]);
    }
  }

  lemma NothingWithin(t: seq<Statement>)
    ensures Lower([]) == [] && !Within(t, []) && !LoweredWithin(t, [])
  {
  }

  lemma LowerTriple(s: seq<Statement>)
    requires TripleAt(s, 0)
    ensures Lower(s) == [If(Lower(s[0].body), Else(Lower(s[1].body)), s[2].span)] + Lower(s[3..])
  {
  }

  lemma LowerSingle(s: seq<Statement>)
    requires |s| > 0 && !TripleAt(s, 0)
    ensures Lower(s) == [LowerStatement(s[0])] + Lower(s[1..])
  {
    hide LowerStatement;
  }

  lemma {:induction false} TripleInside(t': seq<Statement>, s: seq<Statement>)
    requires TripleAt(s, 0)
    ensures InsideStatement(t', If(Lower(s[0].body), Else(Lower(s[1].body)), s[2].span)) <==>
              LoweredIn(t', s[0]) || LoweredIn(t', s[1]) || LoweredIn(t', s[2])
    decreases s, 0
  {
    hide Inside, Lower;
    LowerInside(t', s[0].body);
    LowerInside(t', s[1].body);
    InsideQuotation(t', s[0]);
    InsideQuotation(t', s[1]);
  }

  lemma InsideQuotation(t': seq<Statement>, q: Statement)
    requires q.Quotation?
    ensures LoweredIn(t', q) <==> LoweredInside(t', q.body)
  {
    hide Inside, Lower;
    assert forall t :: InsideStatement(t, q) <==> Inside(t, q.body);
  }

  lemma {:induction false} LowerInStatement(t': seq<Statement>, s: Statement)
    ensures InsideStatement(t', LowerStatement(s)) <==> LoweredIn(t', s)
    decreases s, 0
  {
    hide Inside, Lower;
    match s
    case If(t, e, _) =>
      LowerInside(t', t);
      if e.Else? { LowerInside(t', e.body); }
      assert forall x :: InsideStatement(x, s) <==> Inside(x, t) || (e.Else? && Inside(x, e.body));
    case Quotation(_, body) =>
      LowerInside(t', body);
      InsideQuotation(t', s);
    case Match(arms, _) =>
      LowerArmsAt(arms);
      forall a | 0 <= a < |arms| ensures InsideArm(t', LowerArms(arms)[a]) <==> LoweredInside(t', arms[a].body) {
        assert arms[a] < s;
        LowerInside(t', arms[a].body);
      }
      LoweredInArms(t', s);
    case _ =>
  }

  lemma LoweredInArms(t': seq<Statement>, s: Statement)
    requires s.Match?
    ensures LoweredIn(t', s) <==> exists a :: 0 <= a < |s.arms| && LoweredInside(t', s.arms[a].body)
  {
    hide Inside, Lower;
    forall a | 0 <= a < |s.arms| ensures forall t :: InsideArm(t, s.arms[a]) <==> Inside(t, s.arms[a].body) {}
    if a :| 0 <= a < |s.arms| && LoweredInside(t', s.arms[a].body) {
      var t :| Inside(t, s.arms[a].body) && t' == Lower(t);
      assert InsideArm(t, s.arms[a]) && InsideStatement(t, s);
    }
    if LoweredIn(t', s) {
      var t :| InsideStatement(t, s) && t' == Lower(t);
      var a :| 0 <= a < |s.arms| && InsideArm(t, s.arms[a]);
      assert LoweredInside(t', s.arms[a].body);
    }
  }

  predicate InTriple(s: seq<Statement>, k: nat) {
    TripleAt(s, k) || (k > 0 && TripleAt(s, k - 1))
  }

  ghost predicate KeepsQuotation(s: seq<Statement>, k: nat, id: nat, body: seq<Statement>) {
    k < |s| && !InTriple(s, k) && s[k].Quotation? && s[k].id == id && Lower(s[k].body) == body
  }

  /** The quotations of a lowered list are those of the list that are in no literal triple, with their ids
      and their bodies lowered. */
  lemma {:induction false} QuotationsKept(s: seq<Statement>, id: nat, body: seq<Statement>)
    ensures Quotation(id, body) in Lower(s) <==> exists k :: KeepsQuotation(s, k, id, body)
    decreases |s|
  {
    hide Lower, LowerStatement;
    if |s| == 0 {
      NothingWithin(s);
    } else if TripleAt(s, 0) {
      LowerTriple(s);
      QuotationsKept(s[3..], id, body);
      KeptShift(s, 3, id, body);
      assert InTriple(s, 0) && InTriple(s, 1) && !s[2].Quotation?;
      assert forall k: nat :: KeepsQuotation(s, k, id, body) ==> k != 0 && k != 1 && k != 2;
    } else {
      LowerSingle(s);
      QuotationsKept(s[1..], id, body);
      KeptShift(s, 1, id, body);
      LowerIsQuotation(s[0], id, body);
      var q := Quotation(id, body);
      assert q in Lower(s) <==> LowerStatement(s[0]) == q || q in Lower(s[1..]);
      assert KeepsQuotation(s, 0, id, body) <==> LowerStatement(s[0]) == Quotation(id, body);
    }
  }

  lemma KeptShift(s: seq<Statement>, n: nat, id: nat, body: seq<Statement>)
    requires n <= |s| && (n > 0 ==> !TripleAt(s, n - 1))
    ensures forall k: nat :: KeepsQuotation(s[n..], k, id, body) <==> KeepsQuotation(s, k + n, id, body)
    ensures (exists k :: KeepsQuotation(s[n..], k, id, body)) <==>
              exists k: nat :: k >= n && KeepsQuotation(s, k, id, body)
  {
    hide Lower;
    forall k: nat ensures KeepsQuotation(s[n..], k, id, body) <==> KeepsQuotation(s, k + n, id, body) {
      assert TripleAt(s[n..], k) == TripleAt(s, k + n);
      if k > 0 { assert TripleAt(s[n..], k - 1) == TripleAt(s, k + n - 1); }
    }
    if k: nat :| k >= n && KeepsQuotation(s, k, id, body) { assert KeepsQuotation(s[n..], k - n, id, body); }
  }

  lemma LowerIsQuotation(s: Statement, id: nat, body: seq<Statement>)
    ensures LowerStatement(s) == Quotation(id, body) <==> s.Quotation? && s.id == id && Lower(s.body) == body
  {
    hide Lower;
  }
}
