/** Channel send, receive and close as interleaved atomic steps (crates/runtime/src/channel.rs).
    A strand that makes several calls appears as several calls; calls are never forgotten,
    so the state of a run also tells what each call returned. */
module Channel {
  import opened Wrappers

  /** How an attempt to receive ends: the answers are ( v true ) and ( 0 false ). */
  datatype Attempt<T> = Blocked | Got(v: T) | ToldClosed

  datatype Msg<T> = Value(v: T) | Closed

  /** Where a call stands between its atomic steps. */
  datatype Call<T> =
    | Sending(v: T)     // before the load of the flag
    | Enqueueing(v: T)  // the flag was clear, before the enqueue
    | Sent(v: T)        // returned true
    | Refused           // returned false
    | Receiving         // in recv, blocked while the queue is empty
    | Holding           // took the sentinel, before putting it back
    | Received(v: T)    // returned ( v true )
    | ReceivedClosed    // returned ( 0 false )
    | Closing           // before the compare-exchange
    | Won               // the compare-exchange succeeded, before the enqueue
    | CloseDone
  {
    predicate Fresh() { Sending? || Receiving? || Closing? }

    predicate Finished() { Sent? || Refused? || Received? || ReceivedClosed? || CloseDone? }

    /** The call is between taking (or minting) the sentinel and putting it into the queue. */
    predicate HasToken() { Holding? || Won? }

    /** The call took the sentinel out of the queue at some time. */
    predicate Woken() { Holding? || ReceivedClosed? }
  }

  datatype Shared<T> = Shared(queue: seq<Msg<T>>, closed: bool)

  /** What a call can do next; only a receive on an empty queue has to wait. */
  predicate CanAdvance<T>(sh: Shared<T>, call: Call<T>) {
    !call.Finished() && (call.Receiving? ==> sh.queue != [])
  }

  function Load<T>(sh: Shared<T>, v: T): Call<T> {
    if sh.closed then Refused else Enqueueing(v)
  }

  function Taken<T>(m: Msg<T>): Call<T> {
    match m
    case Value(v) => Received(v)
    case Closed => Holding
  }

  /** One atomic step of one call. */
  function AdvanceCall<T>(sh: Shared<T>, call: Call<T>): (Shared<T>, Call<T>)
    requires CanAdvance(sh, call)
  {
    match call
    case Sending(v) => (sh, Load(sh, v))
    case Enqueueing(v) => (sh.(queue := sh.queue + [Value(v)]), Sent(v))
    case Receiving => (sh.(queue := sh.queue[1..]), Taken(sh.queue[0]))
    case Holding => (sh.(queue := sh.queue + [Closed]), ReceivedClosed)
    case Closing => if sh.closed then (sh, CloseDone) else (sh.(closed := true), Won)
    case Won => (sh.(queue := sh.queue + [Closed]), CloseDone)
  }

  /** How many steps a call has left at most. */
  function StepsLeft<T>(call: Call<T>): nat {
    if call.Finished() then 0 else if call.Fresh() then 2 else 1
  }

  /** A call that runs to its end with nobody in between. */
  function Alone<T>(sh: Shared<T>, call: Call<T>): (Shared<T>, Call<T>)
    requires call.Receiving? ==> sh.queue != []
    decreases StepsLeft(call)
  {
    if call.Finished() then (sh, call)
    else
      var next := AdvanceCall(sh, call);
      Alone(next.0, next.1)
  }

  /** The three operations as the program runs them. */
  class ChannelData<T> {
    var queue: seq<Msg<T>>
    var closed: bool

    constructor ()
      ensures State() == Shared([], false)
    {
      queue, closed := [], false;
    }

    function State(): Shared<T>
      reads this
    {
      Shared(queue, closed)
    }

    method CompareExchange() returns (won: bool)
      modifies this`closed
      ensures closed && won == !old(closed)
    {
      won := !closed;
      closed := true;
    }

    method Enqueue(m: Msg<T>)
      modifies this`queue
      ensures queue == old(queue) + [m]
    {
      queue := queue + [m];
    }

    method Close()
      modifies this
      ensures (State(), CloseDone) == Alone(old(State()), Closing)
      ensures closed && queue == old(queue) + (if old(closed) then [] else [Closed])
    {
      var won := CompareExchange();
      if won { Enqueue(Closed); }
    }

    method Send(v: T) returns (ok: bool)
      modifies this`queue
      ensures (State(), if ok then Sent(v) else Refused) == Alone(old(State()), Sending(v))
      ensures ok == !old(closed) && queue == old(queue) + (if ok then [Value(v)] else [])
    {
      if closed { return false; }
      Enqueue(Value(v));
      assert Alone(old(State()), Enqueueing(v)) == (State(), Sent(v));
      return true;
    }

    /** One attempt of `recv`: with an empty queue it has to wait and changes nothing. */
    method Receive() returns (r: Attempt<T>)
      modifies this`queue
      ensures r.Blocked? <==> old(queue) == []
      ensures r.Blocked? ==> State() == old(State())
      ensures !r.Blocked? ==>
                (State(), if r.Got? then Received(r.v) else ReceivedClosed) == Alone(old(State()), Receiving)
      ensures !r.Blocked? ==> match old(queue)[0]
                              case Value(v) => r == Got(v) && queue == old(queue)[1..]
                              case Closed => r == ToldClosed && queue == old(queue)[1..] + [Closed]
    {
      if queue == [] { return Blocked; }
      var m := queue[0];
      queue := queue[1..];
      match m
      case Value(v) => r := Got(v);
      case Closed =>
        Enqueue(Closed);
        r := ToldClosed;
    }
  }

  // ---- Runs: any interleaving of any number of calls ----

  datatype Entry<T> = Entry(call: nat, v: T)

  /** sent and got list the values that entered and left the queue, with the call that did it;
      mark is how many values had entered when the closer put the sentinel in. */
  datatype State<T> = State(
    shared: Shared<T>, calls: map<nat, Call<T>>, sent: seq<Entry<T>>, got: seq<Entry<T>>, mark: Option<nat>)

  datatype Action<T> = Begin(c: nat, call: Call<T>) | Advance(c: nat)

  predicate Enabled<T>(s: State<T>, a: Action<T>) {
    match a
    case Begin(c, call) => c !in s.calls && call.Fresh()
    case Advance(c) => c in s.calls && CanAdvance(s.shared, s.calls[c])
  }

  function Step<T>(s: State<T>, a: Action<T>): State<T>
    requires Enabled(s, a)
  {
    match a
    case Begin(c, call) => s.(calls := s.calls[c := call])
    case Advance(c) =>
      var before := s.calls[c];
      var (shared, after) := AdvanceCall(s.shared, before);
      State(shared, s.calls[c := after],
            if before.Enqueueing? then s.sent + [Entry(c, before.v)] else s.sent,
            if after.Received? then s.got + [Entry(c, after.v)] else s.got,
            if before.Won? then Some(|s.sent|) else s.mark)
  }

  function Init<T>(): State<T> {
    State(Shared([], false), map[], [], [], None)
  }

  predicate CanRun<T>(s: State<T>, run: seq<Action<T>>)
    decreases run
  {
    run == [] || (Enabled(s, run[0]) && CanRun(Step(s, run[0]), run[1..]))
  }

  function Run<T>(s: State<T>, run: seq<Action<T>>): State<T>
    requires CanRun(s, run)
    decreases run
  {
    if run == [] then s else Run(Step(s, run[0]), run[1..])
  }

  // ---- The invariant ----

  function Closeds<T>(q: seq<Msg<T>>): nat {
    if q == [] then 0 else (if q[0].Closed? then 1 else 0) + Closeds(q[1..])
  }

  function Values<T>(q: seq<Msg<T>>): seq<T> {
    if q == [] then [] else (if q[0].Value? then [q[0].v] else []) + Values(q[1..])
  }

  function Payload<T>(log: seq<Entry<T>>): seq<T> {
    seq(|log|, i requires 0 <= i < |log| => log[i].v)
  }

  function Holders<T>(calls: map<nat, Call<T>>): set<nat> {
    set c | c in calls && calls[c].HasToken()
  }

  /** The sentinel exists once from the moment the flag is set: in the queue, or with the call
      that is about to put it there. */
  predicate OneToken<T>(s: State<T>) {
    Closeds(s.shared.queue) + |Holders(s.calls)| == if s.shared.closed then 1 else 0
  }

  /** First in, first out, nothing lost, nothing duplicated. */
  ghost predicate Fifo<T>(s: State<T>) {
    Payload(s.got) + Values(s.shared.queue) == Payload(s.sent)
  }

  predicate DistinctCalls<T>(log: seq<Entry<T>>) {
    forall i, j :: 0 <= i < j < |log| ==> log[i].call != log[j].call
  }

  /** A receive that returned ( v true ) is exactly one that took v out, and once. */
  ghost predicate GotExact<T(!new)>(s: State<T>) {
    && DistinctCalls(s.got)
    && (forall c, v :: Entry(c, v) in s.got <==> c in s.calls && s.calls[c] == Received(v))
  }

  /** A send that returned true is exactly one whose value went in, and once. */
  ghost predicate SentExact<T(!new)>(s: State<T>) {
    && DistinctCalls(s.sent)
    && (forall c, v :: Entry(c, v) in s.sent <==> c in s.calls && s.calls[c] == Sent(v))
  }

  predicate SomeWoken<T>(calls: map<nat, Call<T>>) {
    exists c :: c in calls && calls[c].Woken()
  }

  predicate SomeWon<T>(calls: map<nat, Call<T>>) {
    exists c :: c in calls && calls[c].Won?
  }

  /** The values queued before the sentinel; meaningful when it is in the queue. */
  function Ahead<T>(q: seq<Msg<T>>): nat {
    if q == [] || q[0].Closed? then 0 else 1 + Ahead(q[1..])
  }

  /** Until the sentinel is first taken it sits right behind the first `mark` values; once it
      has been taken all of those have been delivered. */
  predicate MarkKept<T>(s: State<T>) {
    && (s.mark.None? ==> !SomeWoken(s.calls) && (s.shared.closed ==> SomeWon(s.calls)))
    && (s.mark.Some? ==> s.shared.closed && !SomeWon(s.calls))
    && (s.mark.Some? && SomeWoken(s.calls) ==> s.mark.value <= |s.got|)
    && (s.mark.Some? && !SomeWoken(s.calls) ==> s.mark.value == |s.got| + Ahead(s.shared.queue))
  }

  ghost predicate Inv<T(!new)>(s: State<T>) {
    OneToken(s) && Fifo(s) && GotExact(s) && SentExact(s) && MarkKept(s)
  }

  // ---- Queue facts ----

  lemma {:induction false} AppendMsg<T>(q: seq<Msg<T>>, m: Msg<T>)
    ensures Closeds(q + [m]) == Closeds(q) + (if m.Closed? then 1 else 0)
    ensures Values(q + [m]) == Values(q) + (if m.Value? then [m.v] else [])
    ensures Ahead(q + [m]) == if Closeds(q) == 0 && m.Value? then Ahead(q) + 1 else Ahead(q)
  {
    if q != [] {
      assert (q + [m])[1..] == q[1..] + [m];
      AppendMsg(q[1..], m);
    }
  }

  lemma {:induction false} NoSentinel<T>(q: seq<Msg<T>>)
    requires Closeds(q) == 0
    ensures Ahead(q) == |Values(q)| == |q|
  {
    if q != [] { NoSentinel(q[1..]); }
  }

  lemma {:induction false} AheadAreValues<T>(q: seq<Msg<T>>)
    ensures Ahead(q) <= |Values(q)|
  {
    if q != [] { AheadAreValues(q[1..]); }
  }

  lemma AppendEntry<T>(log: seq<Entry<T>>, e: Entry<T>)
    ensures Payload(log + [e]) == Payload(log) + [e.v]
  {
  }

  // ---- Every step keeps the invariant ----

  lemma HoldersChange<T>(calls: map<nat, Call<T>>, c: nat, call: Call<T>)
    ensures var was := c in calls && calls[c].HasToken();
            |Holders(calls[c := call])| + (if was then 1 else 0)
                == |Holders(calls)| + (if call.HasToken() then 1 else 0)
  {
    var others := Holders(calls) - {c};
    assert Holders(calls) == if c in calls && calls[c].HasToken() then others + {c} else others;
    assert Holders(calls[c := call]) == if call.HasToken() then others + {c} else others;
  }

  lemma OneTokenStep<T(!new)>(s: State<T>, a: Action<T>)
    requires OneToken(s) && Enabled(s, a)
    ensures OneToken(Step(s, a))
  {
    hide Holders;
    HoldersChange(s.calls, a.c, Step(s, a).calls[a.c]);
    AppendAll(s.shared.queue);
  }

  lemma AppendAll<T(!new)>(q: seq<Msg<T>>)
    ensures forall m: Msg<T> {:trigger q + [m]} :: Closeds(q + [m]) == Closeds(q) + (if m.Closed? then 1 else 0)
  {
    forall m: Msg<T> ensures Closeds(q + [m]) == Closeds(q) + (if m.Closed? then 1 else 0) { AppendMsg(q, m); }
  }

  lemma FifoStep<T(!new)>(s: State<T>, a: Action<T>)
    requires Fifo(s) && Enabled(s, a)
    ensures Fifo(Step(s, a))
  {
    if a.Advance? {
      var s', call := Step(s, a), s.calls[a.c];
      match call
      case Enqueueing(v) =>
        AppendMsg(s.shared.queue, Value(v));
        AppendEntry(s.sent, Entry(a.c, v));
      case Receiving =>
        if s.shared.queue[0].Value? { AppendEntry(s.got, Entry(a.c, s.shared.queue[0].v)); }
      case Holding => AppendMsg(s.shared.queue, Closed);
      case Won => AppendMsg(s.shared.queue, Closed);
      case _ =>
    }
  }

  lemma GotStep<T(!new)>(s: State<T>, a: Action<T>)
    requires GotExact(s) && Enabled(s, a)
    ensures GotExact(Step(s, a))
  {
    hide Values, Closeds, Ahead;
    var s' := Step(s, a);
    if s'.got != s.got {
      forall i | 0 <= i < |s.got| ensures s.got[i].call != a.c {
        assert Entry(s.got[i].call, s.got[i].v) in s.got;
      }
    }
  }

  lemma SentStep<T(!new)>(s: State<T>, a: Action<T>)
    requires SentExact(s) && Enabled(s, a)
    ensures SentExact(Step(s, a))
  {
    hide Values, Closeds, Ahead;
    var s' := Step(s, a);
    if s'.sent != s.sent {
      forall i | 0 <= i < |s.sent| ensures s.sent[i].call != a.c {
        assert Entry(s.sent[i].call, s.sent[i].v) in s.sent;
      }
    }
  }

  /** Whoever has the sentinel is alone, and then it is not in the queue. */
  lemma HolderIsAlone<T>(s: State<T>, c: nat)
    requires OneToken(s) && c in s.calls && s.calls[c].HasToken()
    ensures s.shared.closed && Closeds(s.shared.queue) == 0
    ensures forall d :: d in s.calls && s.calls[d].HasToken() ==> d == c
  {
    var h := Holders(s.calls);
    assert c in h;
    assert |h - {c}| == |h| - 1;
    forall d | d in s.calls && s.calls[d].HasToken() ensures d == c {
      assert d in h;
      assert d != c ==> d in h - {c};
    }
  }

  lemma NoHolders<T>(s: State<T>)
    requires OneToken(s) && !SomeWoken(s.calls) && !SomeWon(s.calls)
    ensures Closeds(s.shared.queue) == if s.shared.closed then 1 else 0
  {
    assert Holders(s.calls) == {};
  }

  lemma NotMarked<T>(s: State<T>)
    requires OneToken(s) && MarkKept(s) && s.mark.None?
    ensures Closeds(s.shared.queue) == 0
  {
    if s.shared.closed {
      var c :| c in s.calls && s.calls[c].Won?;
      HolderIsAlone(s, c);
    }
  }

  lemma WokenChange<T>(calls: map<nat, Call<T>>, c: nat, call: Call<T>)
    requires c in calls && calls[c].Woken() ==> call.Woken()
    ensures SomeWoken(calls[c := call]) == (SomeWoken(calls) || call.Woken())
  {
    var after := calls[c := call];
    if d :| d in calls && calls[d].Woken() { assert after[d].Woken(); }
    if call.Woken() { assert after[c].Woken(); }
    if d :| d in after && after[d].Woken() { assert d != c ==> calls[d].Woken(); }
  }

  lemma WonChange<T>(calls: map<nat, Call<T>>, c: nat, call: Call<T>)
    requires !(c in calls && calls[c].Won?)
    ensures SomeWon(calls[c := call]) == (SomeWon(calls) || call.Won?)
  {
    var after := calls[c := call];
    if d :| d in calls && calls[d].Won? { assert after[d].Won?; }
    if call.Won? { assert after[c].Won?; }
    if d :| d in after && after[d].Won? { assert d != c ==> calls[d].Won?; }
  }

  lemma FirstSentinel<T>(s: State<T>, c: nat)
    requires OneToken(s) && Fifo(s) && MarkKept(s) && c in s.calls && s.calls[c].Won?
    ensures MarkKept(Step(s, Advance(c)))
  {
    var s' := Step(s, Advance(c));
    HolderIsAlone(s, c);
    assert SomeWon(s.calls) && s.mark.None?;
    assert forall d :: d in s'.calls && d != c ==> d in s.calls && s'.calls[d] == s.calls[d];
    assert !SomeWon(s'.calls);
    WokenChange(s.calls, c, CloseDone);
    AppendMsg(s.shared.queue, Closed);
    NoSentinel(s.shared.queue);
    assert |Payload(s.got)| + |Values(s.shared.queue)| == |Payload(s.sent)|;
    assert !SomeWoken(s'.calls);
    assert s'.shared == Shared(s.shared.queue + [Closed], true);
    assert s'.mark.value == |s'.got| + Ahead(s'.shared.queue);
  }

  lemma MarkStep<T(!new)>(s: State<T>, a: Action<T>)
    requires OneToken(s) && Fifo(s) && MarkKept(s) && Enabled(s, a)
    ensures MarkKept(Step(s, a))
  {
    hide Fifo, OneToken, Values;
    var s' := Step(s, a);
    if a.Advance? && s.calls[a.c].Won? {
      FirstSentinel(s, a.c);
    } else {
      hide SomeWoken, SomeWon;
      WokenChange(s.calls, a.c, s'.calls[a.c]);
      WonChange(s.calls, a.c, s'.calls[a.c]);
      if a.Advance? {
        match s.calls[a.c]
        case Enqueueing(v) =>
          AppendMsg(s.shared.queue, Value(v));
          if s.mark.Some? && !SomeWoken(s.calls) { NoHolders(s); }
        case Receiving =>
          if s.mark.None? { NotMarked(s); }
        case _ =>
      }
    }
  }

  lemma StepKeepsInv<T(!new)>(s: State<T>, a: Action<T>)
    requires Inv(s) && Enabled(s, a)
    ensures Inv(Step(s, a))
  {
    hide OneToken, Fifo, GotExact, SentExact, MarkKept, Step;
    OneTokenStep(s, a);
    FifoStep(s, a);
    GotStep(s, a);
    SentStep(s, a);
    MarkStep(s, a);
  }

  lemma InitInv<T(!new)>()
    ensures Inv(Init<T>())
  {
    assert Holders(Init<T>().calls) == {};
  }

  /** Whatever calls are made and however their steps interleave. */
  lemma {:induction false} RunKeepsInv<T(!new)>(s: State<T>, run: seq<Action<T>>)
    requires Inv(s) && CanRun(s, run)
    ensures Inv(Run(s, run))
    decreases run
  {
    hide Inv, Enabled, Step;
    if run != [] {
      StepKeepsInv(s, run[0]);
      RunKeepsInv(Step(s, run[0]), run[1..]);
    }
  }

  lemma ReachableInv<T(!new)>(run: seq<Action<T>>)
    requires CanRun(Init(), run)
    ensures Inv(Run(Init(), run))
  {
    InitInv<T>();
    RunKeepsInv(Init(), run);
  }

  // ---- What the callers see ----

  /** Close wakes everyone: with the flag set and nobody holding the sentinel, no receive waits. */
  lemma CloseLeavesNobodyWaiting<T(!new)>(s: State<T>)
    requires Inv(s) && s.shared.closed && Holders(s.calls) == {}
    ensures s.shared.queue != []
  {
  }

  /** A receive that answers ( 0 false ) does so after every value queued ahead of the sentinel
      was delivered, and in order. */
  lemma DeliveredBeforeFalse<T(!new)>(s: State<T>, c: nat)
    requires Inv(s) && c in s.calls && s.calls[c].Woken()
    ensures s.mark.Some? && s.mark.value <= |s.got| <= |s.sent|
    ensures Payload(s.got) <= Payload(s.sent)
    ensures Payload(s.sent)[..s.mark.value] <= Payload(s.got)
  {
    assert SomeWoken(s.calls);
    assert |Payload(s.got)| <= |Payload(s.sent)|;
    assert Payload(s.got) == Payload(s.sent)[..|s.got|];
  }

  ghost predicate NotYetPastGate<T(!new)>(s: State<T>, c: nat) {
    s.shared.closed && !(c in s.calls && (s.calls[c].Enqueueing? || s.calls[c].Sent?))
  }

  /** A send that looks at the flag after some close set it never enqueues and never returns true. */
  lemma {:induction false} SendAfterCloseRefused<T(!new)>(s: State<T>, run: seq<Action<T>>, c: nat)
    requires Inv(s) && CanRun(s, run) && NotYetPastGate(s, c)
    ensures NotYetPastGate(Run(s, run), c)
    ensures forall e :: e in Run(s, run).sent ==> e.call != c
    decreases run
  {
    if run == [] {
      forall e | e in s.sent ensures e.call != c { assert Entry(e.call, e.v) in s.sent; }
    } else {
      StepKeepsInv(s, run[0]);
      assert NotYetPastGate(Step(s, run[0]), c) by { hide Inv; }
      SendAfterCloseRefused(Step(s, run[0]), run[1..], c);
    }
  }

  /** What the answers say about the channel: a send is refused and a close returns only on a closed
      channel, and the flag is set only by a close. */
  ghost predicate AnswersTrue<T(!new)>(s: State<T>) {
    && (forall c :: c in s.calls && (s.calls[c].Refused? || s.calls[c].CloseDone? || s.calls[c].Won?) ==>
          s.shared.closed)
    && (s.shared.closed ==> exists c :: c in s.calls && (s.calls[c].CloseDone? || s.calls[c].Won?))
  }

  lemma AnswersStep<T(!new)>(s: State<T>, a: Action<T>)
    requires AnswersTrue(s) && Enabled(s, a)
    ensures AnswersTrue(Step(s, a))
  {
    var s' := Step(s, a);
    if s.shared.closed {
      var c :| c in s.calls && (s.calls[c].CloseDone? || s.calls[c].Won?);
      assert c in s'.calls && (s'.calls[c].CloseDone? || s'.calls[c].Won?);
    }
    if s'.shared.closed && !s.shared.closed { assert s'.calls[a.c].Won?; }
  }

  /** Over every run. */
  lemma {:induction false} AnswersRun<T(!new)>(s: State<T>, run: seq<Action<T>>)
    requires AnswersTrue(s) && CanRun(s, run)
    ensures AnswersTrue(Run(s, run))
    decreases run
  {
    hide AnswersTrue, Enabled, Step;
    if run != [] {
      AnswersStep(s, run[0]);
      AnswersRun(Step(s, run[0]), run[1..]);
    }
  }

  lemma ReachableAnswers<T(!new)>(run: seq<Action<T>>)
    requires CanRun(Init(), run)
    ensures AnswersTrue(Run(Init(), run))
  {
    AnswersRun(Init(), run);
  }

  /** Past the flag, a send is on its way to true. */
  predicate WillSend<T(==)>(s: State<T>, c: nat, v: T) {
    c in s.calls && (s.calls[c] == Enqueueing(v) || s.calls[c] == Sent(v))
  }

  lemma {:induction false} WillSendRun<T(!new)>(s: State<T>, run: seq<Action<T>>, c: nat, v: T)
    requires WillSend(s, c, v) && CanRun(s, run)
    ensures WillSend(Run(s, run), c, v)
    decreases run
  {
    if run != [] { WillSendRun(Step(s, run[0]), run[1..], c, v); }
  }

  /** A send that looks at the flag while it is clear: whatever the others do, a close in between
      included, it can go on at once, is never refused, and has put its value in when it returns. */
  lemma SendWhileOpenGoesIn<T(!new)>(s: State<T>, run: seq<Action<T>>, c: nat, v: T)
    requires Inv(s) && c in s.calls && s.calls[c] == Sending(v) && !s.shared.closed
    requires CanRun(Step(s, Advance(c)), run)
    ensures var t := Run(Step(s, Advance(c)), run);
            && WillSend(t, c, v)
            && (t.calls[c].Finished() ==> t.calls[c] == Sent(v) && Entry(c, v) in t.sent)
            && (Stuck(t) ==> t.calls[c] == Sent(v))
  {
    var s1 := Step(s, Advance(c));
    StepKeepsInv(s, Advance(c));
    RunKeepsInv(s1, run);
    hide Fifo, OneToken, MarkKept, GotExact;
    WillSendRun(s1, run, c, v);
    var t := Run(s1, run);
    if t.calls[c] == Enqueueing(v) { assert CanAdvance(t.shared, t.calls[c]); }
  }

  // ---- Progress ----

  predicate AllFinished<T>(s: State<T>) {
    forall c :: c in s.calls ==> s.calls[c].Finished()
  }

  predicate Stuck<T>(s: State<T>) {
    forall c :: c in s.calls ==> !CanAdvance(s.shared, s.calls[c])
  }

  /** Nothing can move exactly when every call has returned, or the channel is open and empty
      and the calls that have not returned are receives. */
  lemma StuckIff<T(!new)>(s: State<T>)
    requires Inv(s)
    ensures Stuck(s) <==>
            || AllFinished(s)
            || (!s.shared.closed && s.shared.queue == []
                && forall c :: c in s.calls ==> s.calls[c].Finished() || s.calls[c].Receiving?)
  {
    hide Fifo, GotExact, SentExact, MarkKept;
    if Stuck(s) && !AllFinished(s) {
      assert forall c :: c in s.calls && !s.calls[c].Finished() ==> s.calls[c].Receiving?;
      assert Holders(s.calls) == {};
    }
  }

  /** Steps left over all calls. */
  ghost function Work<T>(calls: map<nat, Call<T>>): nat
    decreases calls.Keys
  {
    if calls.Keys == {} then 0
    else
      var c :| c in calls;
      StepsLeft(calls[c]) + Work(calls - {c})
  }

  lemma {:induction false} WorkRemove<T>(calls: map<nat, Call<T>>, c: nat)
    requires c in calls
    ensures Work(calls) == StepsLeft(calls[c]) + Work(calls - {c})
    decreases calls.Keys
  {
    var d :| d in calls && Work(calls) == StepsLeft(calls[d]) + Work(calls - {d});
    if c != d {
      WorkRemove(calls - {d}, c);
      WorkRemove(calls - {c}, d);
      assert calls - {d} - {c} == calls - {c} - {d};
    }
  }

  lemma WorkStep<T(!new)>(s: State<T>, a: Action<T>)
    requires Enabled(s, a) && a.Advance?
    ensures Work(Step(s, a).calls) < Work(s.calls)
  {
    hide Work;
    var after := Step(s, a).calls;
    WorkRemove(s.calls, a.c);
    WorkRemove(after, a.c);
    assert after - {a.c} == s.calls - {a.c};
  }

  predicate NoNewCalls<T>(run: seq<Action<T>>) {
    forall k :: 0 <= k < |run| ==> run[k].Advance?
  }

  /** Once the channel is closed and no new calls come, every run is bounded and one that
      cannot go on has answered every call. */
  lemma {:induction false} ClosedCallsReturn<T(!new)>(s: State<T>, run: seq<Action<T>>)
    requires Inv(s) && s.shared.closed && CanRun(s, run) && NoNewCalls(run)
    ensures |run| <= Work(s.calls)
    ensures Stuck(Run(s, run)) ==> AllFinished(Run(s, run))
    decreases run
  {
    hide Inv, Work, Stuck, AllFinished;
    if run == [] {
      StuckIff(s);
    } else {
      StepKeepsInv(s, run[0]);
      WorkStep(s, run[0]);
      ClosedCallsReturn(Step(s, run[0]), run[1..]);
    }
  }

  // ---- When "closed" means "closed and drained" ----

  /** Some receive returned ( 0 false ). */
  predicate SomeToldClosed<T>(calls: map<nat, Call<T>>) {
    exists c :: c in calls && calls[c].ReceivedClosed?
  }

  /** Whatever happens from here, ( 0 false ) means that every value sent was delivered. */
  ghost predicate AlwaysDrained<T(!new)>(s: State<T>) {
    forall run {:trigger Run(s, run)} ::
      CanRun(s, run) && SomeToldClosed(Run(s, run).calls) ==> |Run(s, run).got| == |Run(s, run).sent|
  }

  /** Some send found the flag clear and has not enqueued yet. */
  predicate SomeRacing<T>(calls: map<nat, Call<T>>) {
    exists c :: c in calls && calls[c].Enqueueing?
  }

  /** Nothing is behind the sentinel, or nothing is left once it was taken. */
  predicate NothingLate<T>(s: State<T>)
    requires s.mark.Some?
  {
    if SomeWoken(s.calls) then |s.got| == |s.sent| else |s.sent| == s.mark.value
  }

  lemma InvLengths<T(!new)>(s: State<T>)
    requires Inv(s)
    ensures |s.got| + |Values(s.shared.queue)| == |s.sent|
    ensures s.mark.Some? ==> s.shared.closed
    ensures s.mark.Some? && SomeWoken(s.calls) ==> s.mark.value <= |s.got|
    ensures s.mark.Some? && !SomeWoken(s.calls) ==> s.mark.value == |s.got| + Ahead(s.shared.queue)
    ensures s.mark.Some? && !SomeWoken(s.calls) ==> Closeds(s.shared.queue) == 1
    ensures Ahead(s.shared.queue) <= |Values(s.shared.queue)|
  {
    hide GotExact, SentExact, OneToken;
    AheadAreValues(s.shared.queue);
    assert |Payload(s.got)| + |Values(s.shared.queue)| == |Payload(s.sent)|;
    if s.mark.Some? && !SomeWoken(s.calls) { NoHolders(s); }
  }

  lemma QuietStep<T(!new)>(s: State<T>, a: Action<T>)
    requires Inv(s) && Enabled(s, a) && s.mark.Some? && !SomeRacing(s.calls) && NothingLate(s)
    ensures var s' := Step(s, a); s'.mark.Some? && !SomeRacing(s'.calls) && NothingLate(s')
  {
    var s' := Step(s, a);
    InvLengths(s);
    StepKeepsInv(s, a);
    InvLengths(s');
    hide Inv, SomeWoken, Closeds, Ahead;
    WokenChange(s.calls, a.c, s'.calls[a.c]);
    assert forall d :: d in s'.calls && d != a.c ==> d in s.calls && s'.calls[d] == s.calls[d];
    if a.Advance? && s.calls[a.c].Won? { WonStays(s, a.c); }
  }

  lemma WonStays<T(!new)>(s: State<T>, c: nat)
    requires Inv(s) && s.mark.Some? && c in s.calls
    ensures !s.calls[c].Won?
  {
  }

  lemma {:induction false} QuietRun<T(!new)>(s: State<T>, run: seq<Action<T>>)
    requires Inv(s) && CanRun(s, run) && s.mark.Some? && !SomeRacing(s.calls) && NothingLate(s)
    ensures SomeToldClosed(Run(s, run).calls) ==> |Run(s, run).got| == |Run(s, run).sent|
    decreases run
  {
    hide Inv, Enabled, Step;
    if run == [] {
      if SomeToldClosed(s.calls) { assert SomeWoken(s.calls); }
    } else {
      QuietStep(s, run[0]);
      StepKeepsInv(s, run[0]);
      QuietRun(Step(s, run[0]), run[1..]);
    }
  }

  lemma FreshCall(used: set<nat>) returns (c: nat)
    ensures forall d :: d in used ==> d < c
    decreases used
  {
    c := 0;
    if d :| d in used {
      c := FreshCall(used - {d});
      assert forall e :: e in used ==> e == d || e in used - {d};
      if c <= d { c := d + 1; }
    }
  }

  lemma PrependRun<T(!new)>(s: State<T>, a: Action<T>, rest: seq<Action<T>>)
    requires Enabled(s, a) && CanRun(Step(s, a), rest)
    ensures CanRun(s, [a] + rest) && Run(s, [a] + rest) == Run(Step(s, a), rest)
  {
    hide Enabled, Step;
    assert ([a] + rest)[1..] == rest;
  }

  /** New receives can always eat their way to the sentinel and past it. */
  lemma {:induction false} ReachSentinel<T(!new)>(s: State<T>) returns (run: seq<Action<T>>)
    requires Closeds(s.shared.queue) > 0
    ensures CanRun(s, run) && SomeToldClosed(Run(s, run).calls)
    ensures Run(s, run).sent == s.sent && |Run(s, run).got| == |s.got| + Ahead(s.shared.queue)
    decreases |s.shared.queue|
  {
    var c := FreshCall(s.calls.Keys);
    var s1 := Step(s, Begin(c, Receiving));
    var s2 := Step(s1, Advance(c));
    if s.shared.queue[0].Closed? {
      var s3 := Step(s2, Advance(c));
      assert s3.calls[c].ReceivedClosed?;
      assert CanRun(s3, []);
      PrependRun(s2, Advance(c), []);
      run := [Advance(c)] + [];
    } else {
      run := ReachSentinel(s2);
    }
    PrependRun(s1, Advance(c), run);
    PrependRun(s, Begin(c, Receiving), [Advance(c)] + run);
    run := [Begin(c, Receiving)] + ([Advance(c)] + run);
  }

  /** A late value stays behind some ( 0 false ). */
  lemma LateRun<T(!new)>(s: State<T>) returns (run: seq<Action<T>>)
    requires Inv(s) && s.mark.Some? && !NothingLate(s)
    ensures CanRun(s, run) && SomeToldClosed(Run(s, run).calls) && |Run(s, run).got| != |Run(s, run).sent|
  {
    InvLengths(s);
    hide Inv, Closeds, Ahead;
    if SomeWoken(s.calls) {
      var c :| c in s.calls && s.calls[c].Woken();
      run := [];
      if s.calls[c].Holding? {
        var s1 := Step(s, Advance(c));
        assert s1.calls[c].ReceivedClosed?;
        assert CanRun(s1, []);
        PrependRun(s, Advance(c), []);
        run := [Advance(c)] + [];
      }
    } else {
      run := ReachSentinel(s);
    }
  }

  /** From the moment the sentinel is in the queue: ( 0 false ) means drained, on every run,
      exactly when no send is between its check and its enqueue and nothing is late already. */
  lemma DrainedIff<T(!new)>(s: State<T>)
    requires Inv(s) && s.mark.Some?
    ensures AlwaysDrained(s) <==> !SomeRacing(s.calls) && NothingLate(s)
  {
    hide Inv, NothingLate;
    if !SomeRacing(s.calls) && NothingLate(s) {
      forall run | CanRun(s, run) && SomeToldClosed(Run(s, run).calls)
        ensures |Run(s, run).got| == |Run(s, run).sent|
      {
        QuietRun(s, run);
      }
    } else if !NothingLate(s) {
      var run := LateRun(s);
      assert Run(s, run) == Run(s, run);
    } else {
      var c :| c in s.calls && s.calls[c].Enqueueing?;
      var s1 := Step(s, Advance(c));
      LateAfterRace(s, c);
      StepKeepsInv(s, Advance(c));
      var rest := LateRun(s1);
      PrependRun(s, Advance(c), rest);
      assert Run(s, [Advance(c)] + rest) == Run(s1, rest);
    }
  }

  lemma LateAfterRace<T(!new)>(s: State<T>, c: nat)
    requires Inv(s) && s.mark.Some? && c in s.calls && s.calls[c].Enqueueing?
    ensures Step(s, Advance(c)).mark.Some? && !NothingLate(Step(s, Advance(c)))
  {
    var s' := Step(s, Advance(c));
    InvLengths(s);
    hide Inv, SomeWoken;
    WokenChange(s.calls, c, s'.calls[c]);
  }

  /** At the closer's enqueue that comes down to: no send is in between. */
  lemma CloseDrainsIff<T(!new)>(s: State<T>, c: nat)
    requires Inv(s) && c in s.calls && s.calls[c].Won?
    ensures AlwaysDrained(Step(s, Advance(c))) <==> !SomeRacing(s.calls)
  {
    var s' := Step(s, Advance(c));
    StepKeepsInv(s, Advance(c));
    assert SomeWon(s.calls);
    DrainedIff(s');
    hide Inv, AlwaysDrained, SomeWoken;
    assert forall d :: d in s'.calls && d != c ==> d in s.calls && s'.calls[d] == s.calls[d];
    assert SomeRacing(s.calls) == SomeRacing(s'.calls);
    WokenChange(s.calls, c, s'.calls[c]);
  }
}
