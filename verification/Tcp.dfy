/** Socket ids: two registries with free lists, and operations that take a socket out across a
    yield and put it back (crates/runtime/src/tcp.rs). */
module Tcp {
  import opened Values
  import opened Wrappers

  const MAX_SOCKETS: nat := 10_000

  /** The fields of a registry. A slot is None while its id is free or while its socket is taken out. */
  datatype Registry<T> = Registry(sockets: seq<Option<T>>, freeIds: seq<nat>)

  function Allocate<T>(reg: Registry<T>, socket: T): (Registry<T>, Option<nat>)
    requires reg.freeIds != [] ==> reg.freeIds[|reg.freeIds| - 1] < |reg.sockets|
  {
    if reg.freeIds != [] then
      var id := reg.freeIds[|reg.freeIds| - 1];
      (Registry(reg.sockets[id := Some(socket)], reg.freeIds[..|reg.freeIds| - 1]), Some(id))
    else if |reg.sockets| >= MAX_SOCKETS then (reg, None)
    else (Registry(reg.sockets + [Some(socket)], reg.freeIds), Some(|reg.sockets|))
  }

  predicate Live<T>(reg: Registry<T>, id: nat) {
    id < |reg.sockets| && reg.sockets[id].Some?
  }

  function Free<T>(reg: Registry<T>, id: nat): Registry<T> {
    if Live(reg, id) then Registry(reg.sockets[id := None], reg.freeIds + [id]) else reg
  }

  function ReleaseReserved<T>(reg: Registry<T>, id: nat): Registry<T> {
    if id < |reg.sockets| && reg.sockets[id].None? && id !in reg.freeIds then reg.(freeIds := reg.freeIds + [id])
    else reg
  }

  /** `get_mut(id).and_then(take)` */
  function Take<T>(reg: Registry<T>, id: nat): Registry<T> {
    if Live(reg, id) then reg.(sockets := reg.sockets[id := None]) else reg
  }

  /** `if let Some(slot) = get_mut(id) { *slot = Some(socket) }` */
  function Put<T>(reg: Registry<T>, id: nat, socket: T): Registry<T> {
    if id < |reg.sockets| then reg.(sockets := reg.sockets[id := Some(socket)]) else reg
  }

  class SocketRegistry<T> {
    var sockets: seq<Option<T>>
    var freeIds: seq<nat>

    constructor ()
      ensures State() == Registry([], [])
    {
      sockets, freeIds := [], [];
    }

    function State(): Registry<T>
      reads this
    {
      Registry(sockets, freeIds)
    }

    method AllocateId(socket: T) returns (id: Option<nat>)
      requires freeIds != [] ==> freeIds[|freeIds| - 1] < |sockets|
      modifies this
      ensures (State(), id) == Allocate(old(State()), socket)
    {
      if freeIds != [] {
        var last := freeIds[|freeIds| - 1];
        freeIds := freeIds[..|freeIds| - 1];
        sockets := sockets[last := Some(socket)];
        return Some(last);
      }
      if |sockets| >= MAX_SOCKETS { return None; }
      sockets := sockets + [Some(socket)];
      return Some(|sockets| - 1);
    }

    method FreeId(id: nat)
      modifies this
      ensures State() == Free(old(State()), id)
    {
      if id < |sockets| && sockets[id].Some? {
        sockets := sockets[id := None];
        freeIds := freeIds + [id];
      }
    }

    method Release(id: nat)
      modifies this
      ensures State() == ReleaseReserved(old(State()), id)
    {
      var isReserved := id < |sockets| && sockets[id].None?;
      if isReserved && id !in freeIds {
        freeIds := freeIds + [id];
      }
    }

    method TakeOut(id: nat) returns (socket: Option<T>)
      modifies this
      ensures State() == Take(old(State()), id)
      ensures socket == if Live(old(State()), id) then old(State()).sockets[id] else None
    {
      if id < |sockets| && sockets[id].Some? {
        socket := sockets[id];
        sockets := sockets[id := None];
      } else {
        socket := None;
      }
    }

    method PutBack(id: nat, socket: T)
      modifies this
      ensures State() == Put(old(State()), id, socket)
    {
      if id < |sockets| {
        sockets := sockets[id := Some(socket)];
      }
    }
  }

  // ---- One registry: every id is live, reserved or free ----

  /** reserved are the ids whose sockets are taken out. */
  ghost predicate Partition<T>(reg: Registry<T>, reserved: set<nat>) {
    && |reg.sockets| <= MAX_SOCKETS
    && Distinct(reg.freeIds)
    && (forall id :: id in reg.freeIds ==> id < |reg.sockets| && reg.sockets[id].None? && id !in reserved)
    && (forall id :: id in reserved ==> id < |reg.sockets| && reg.sockets[id].None?)
    && (forall id :: 0 <= id < |reg.sockets| && reg.sockets[id].None? ==> id in reg.freeIds || id in reserved)
  }

  /** A new id was neither live nor reserved; none is given out only when all ids are in use. */
  lemma AllocatePartition<T>(reg: Registry<T>, reserved: set<nat>, socket: T)
    requires Partition(reg, reserved)
    ensures reg.freeIds != [] ==> reg.freeIds[|reg.freeIds| - 1] < |reg.sockets|
    ensures var (reg', id) := Allocate(reg, socket);
            && Partition(reg', reserved)
            && (id.None? <==> reg.freeIds == [] && |reg.sockets| == MAX_SOCKETS)
            && (id.None? ==> reg' == reg)
            && (id.Some? ==> && !Live(reg, id.value) && id.value !in reserved && id.value < MAX_SOCKETS
                             && Live(reg', id.value) && reg'.sockets[id.value] == Some(socket))
            && (forall x: nat :: id != Some(x) ==> Live(reg', x) == Live(reg, x))
            && (forall x: nat :: id != Some(x) && Live(reg, x) ==> reg'.sockets[x] == reg.sockets[x])
  {
    var n := |reg.freeIds|;
    if n > 0 {
      var id := reg.freeIds[n - 1];
      assert id in reg.freeIds;
      forall x | x in reg.freeIds && x != id ensures x in reg.freeIds[..n - 1] {
        var i :| 0 <= i < n && reg.freeIds[i] == x;
        assert reg.freeIds[..n - 1][i] == x;
      }
    }
  }

  lemma FreePartition<T>(reg: Registry<T>, reserved: set<nat>, id: nat)
    requires Partition(reg, reserved)
    ensures Partition(Free(reg, id), reserved)
  {
    if Live(reg, id) { AppendFree(reg.freeIds, id); }
  }

  lemma AppendFree(ids: seq<nat>, id: nat)
    ensures forall x :: x in ids + [id] <==> x in ids || x == id
    ensures Distinct(ids) && id !in ids ==> Distinct(ids + [id])
  {
  }

  lemma TakePartition<T>(reg: Registry<T>, reserved: set<nat>, id: nat)
    requires Partition(reg, reserved) && Live(reg, id)
    ensures Partition(Take(reg, id), reserved + {id}) && id !in reserved
  {
  }

  lemma PutPartition<T>(reg: Registry<T>, reserved: set<nat>, id: nat, socket: T)
    requires Partition(reg, reserved) && id in reserved
    ensures Partition(Put(reg, id, socket), reserved - {id})
    ensures Live(Put(reg, id, socket), id) && Put(reg, id, socket).sockets[id] == Some(socket)
  {
  }

  /** Releasing a reserved id always puts it on the free list: neither guard of the code stops it. */
  lemma ReleasePartition<T>(reg: Registry<T>, reserved: set<nat>, id: nat)
    requires Partition(reg, reserved) && id in reserved
    ensures Partition(ReleaseReserved(reg, id), reserved - {id})
    ensures id in ReleaseReserved(reg, id).freeIds
  {
    AppendFree(reg.freeIds, id);
  }

  /** Plain free would leak it: a reserved slot is None, and free skips those. */
  lemma FreeSkipsReserved<T>(reg: Registry<T>, reserved: set<nat>, id: nat)
    requires Partition(reg, reserved) && id in reserved
    ensures Free(reg, id) == reg && id !in Free(reg, id).freeIds
  {
  }

  // ---- Strands between taking and putting back ----

  /** Connections and listeners are numbered; a number is used once. */
  datatype Stream = PlainTcp(conn: nat) | Tls(conn: nat)

  datatype Strand =
    | Using(id: nat, stream: Stream)         // read or write, in the system call
    | Upgrading(id: nat, conn: nat)          // in the handshake
    | Accepting(id: nat, listener: nat)      // in accept
    | Accepted(conn: nat)                    // listener is back, the stream has no id yet

  datatype State = State(streams: Registry<Stream>, listeners: Registry<nat>, strands: map<nat, Strand>)

  datatype Action =
    | Listen(listener: nat)
    | Connect(conn: nat)
    | StartUse(t: nat, id: Int64)
    | EndUse(t: nat)
    | StartUpgrade(t: nat, id: Int64)
    | EndUpgrade(t: nat, ok: bool)
    | StartAccept(t: nat, id: Int64)
    | EndAccept(t: nat, accepted: Option<nat>)   // None when accept fails
    | Register(t: nat)
    | Close(id: Int64)

  /** `id as usize`: a negative id becomes larger than any index. */
  function AsUsize(id: Int64): nat {
    if id < 0 then id + TWO_64 else id
  }

  function StreamIds(strands: map<nat, Strand>): set<nat> {
    set t | t in strands && (strands[t].Using? || strands[t].Upgrading?) :: strands[t].id
  }

  function ListenerIds(strands: map<nat, Strand>): set<nat> {
    set t | t in strands && strands[t].Accepting? :: strands[t].id
  }

  ghost predicate Enabled(s: State, a: Action) {
    match a
    case Listen(_) => true
    case Connect(_) => true
    case StartUse(t, _) => t !in s.strands
    case EndUse(t) => t in s.strands && s.strands[t].Using?
    case StartUpgrade(t, _) => t !in s.strands
    case EndUpgrade(t, _) => t in s.strands && s.strands[t].Upgrading?
    case StartAccept(t, _) => t !in s.strands
    case EndAccept(t, _) => t in s.strands && s.strands[t].Accepting?
    case Register(t) => t in s.strands && s.strands[t].Accepted?
    case Close(_) => true
  }

  predicate CanAllocate<T>(reg: Registry<T>) {
    reg.freeIds != [] ==> reg.freeIds[|reg.freeIds| - 1] < |reg.sockets|
  }

  function TakeForUse(s: State, t: nat, id: nat): State {
    if Live(s.streams, id)
    then s.(streams := Take(s.streams, id), strands := s.strands[t := Using(id, s.streams.sockets[id].value)])
    else s
  }

  /** A slot that holds a TLS stream is restored under the same lock. */
  function TakeTcp(s: State, t: nat, id: nat): State {
    if Live(s.streams, id) && s.streams.sockets[id].value.PlainTcp?
    then s.(streams := Take(s.streams, id), strands := s.strands[t := Upgrading(id, s.streams.sockets[id].value.conn)])
    else s
  }

  function TakeListener(s: State, t: nat, id: nat): State {
    if Live(s.listeners, id)
    then s.(listeners := Take(s.listeners, id), strands := s.strands[t := Accepting(id, s.listeners.sockets[id].value)])
    else s
  }

  function FinishUpgrade(s: State, t: nat, id: nat, conn: nat, ok: bool): State {
    s.(streams := if ok then Put(s.streams, id, Tls(conn)) else ReleaseReserved(s.streams, id),
       strands := s.strands - {t})
  }

  function FinishAccept(s: State, t: nat, id: nat, listener: nat, conn: Option<nat>): State {
    s.(listeners := Put(s.listeners, id, listener),
       strands := if conn.Some? then s.strands[t := Accepted(conn.value)] else s.strands - {t})
  }

  /** Streams first, then listeners. */
  function CloseId(s: State, id: nat): State {
    if Live(s.streams, id) then s.(streams := Free(s.streams, id)) else s.(listeners := Free(s.listeners, id))
  }

  ghost function Step(s: State, a: Action): State
    requires Enabled(s, a) && CanAllocate(s.streams) && CanAllocate(s.listeners)
  {
    match a
    case Listen(listener) => s.(listeners := Allocate(s.listeners, listener).0)
    case Connect(conn) => s.(streams := Allocate(s.streams, PlainTcp(conn)).0)
    case StartUse(t, id) => TakeForUse(s, t, AsUsize(id))
    case EndUse(t) => s.(streams := Put(s.streams, s.strands[t].id, s.strands[t].stream), strands := s.strands - {t})
    case StartUpgrade(t, id) => TakeTcp(s, t, AsUsize(id))
    case EndUpgrade(t, ok) => FinishUpgrade(s, t, s.strands[t].id, s.strands[t].conn, ok)
    case StartAccept(t, id) => TakeListener(s, t, AsUsize(id))
    case EndAccept(t, accepted) => FinishAccept(s, t, s.strands[t].id, s.strands[t].listener, accepted)
    case Register(t) =>
      s.(streams := Allocate(s.streams, PlainTcp(s.strands[t].conn)).0, strands := s.strands - {t})
    case Close(id) => CloseId(s, AsUsize(id))
  }

  /** No two strands hold the same id. */
  ghost predicate OneHolder(strands: map<nat, Strand>) {
    && (forall t, u :: t in strands && u in strands && t != u
                       && (strands[t].Using? || strands[t].Upgrading?) && (strands[u].Using? || strands[u].Upgrading?)
                       ==> strands[t].id != strands[u].id)
    && (forall t, u :: t in strands && u in strands && t != u && strands[t].Accepting? && strands[u].Accepting?
                       ==> strands[t].id != strands[u].id)
  }

  ghost predicate Inv(s: State) {
    && Partition(s.streams, StreamIds(s.strands))
    && Partition(s.listeners, ListenerIds(s.strands))
    && OneHolder(s.strands)
  }

  lemma InvAllocates(s: State)
    requires Inv(s)
    ensures CanAllocate(s.streams) && CanAllocate(s.listeners)
  {
    assert s.streams.freeIds != [] ==> s.streams.freeIds[|s.streams.freeIds| - 1] in s.streams.freeIds;
    assert s.listeners.freeIds != [] ==> s.listeners.freeIds[|s.listeners.freeIds| - 1] in s.listeners.freeIds;
  }

  predicate HoldsStream(q: Strand) {
    q.Using? || q.Upgrading?
  }

  lemma HoldersAdd(strands: map<nat, Strand>, t: nat, q: Strand)
    requires t !in strands || strands[t].Accepted?
    ensures StreamIds(strands[t := q]) == StreamIds(strands) + (if HoldsStream(q) then {q.id} else {})
    ensures ListenerIds(strands[t := q]) == ListenerIds(strands) + (if q.Accepting? then {q.id} else {})
    ensures (OneHolder(strands)
             && (HoldsStream(q) ==> q.id !in StreamIds(strands))
             && (q.Accepting? ==> q.id !in ListenerIds(strands))) ==> OneHolder(strands[t := q])
  {
    var strands' := strands[t := q];
    assert forall u :: u in strands && HoldsStream(strands[u]) ==> u in strands' && strands'[u] == strands[u];
    assert forall u :: u in strands && strands[u].Accepting? ==> u in strands' && strands'[u] == strands[u];
    assert strands'[t] == q;
    forall u | u in strands && HoldsStream(strands[u]) ensures strands[u].id in StreamIds(strands) {}
    forall u | u in strands && strands[u].Accepting? ensures strands[u].id in ListenerIds(strands) {}
  }

  lemma HoldersRemove(strands: map<nat, Strand>, t: nat)
    requires t in strands && OneHolder(strands)
    ensures StreamIds(strands - {t}) == StreamIds(strands) - (if HoldsStream(strands[t]) then {strands[t].id} else {})
    ensures ListenerIds(strands - {t}) == ListenerIds(strands) - (if strands[t].Accepting? then {strands[t].id} else {})
    ensures OneHolder(strands - {t})
    ensures HoldsStream(strands[t]) ==> strands[t].id in StreamIds(strands)
    ensures strands[t].Accepting? ==> strands[t].id in ListenerIds(strands)
  {
    var strands' := strands - {t};
    assert forall u :: u in strands && u != t ==> u in strands' && strands'[u] == strands[u];
  }

  lemma StartStep(s: State, a: Action)
    requires Inv(s) && Enabled(s, a) && (a.StartUse? || a.StartUpgrade? || a.StartAccept?)
    requires CanAllocate(s.streams) && CanAllocate(s.listeners)
    ensures Inv(Step(s, a))
  {
    hide StreamIds, ListenerIds, OneHolder, Partition;
    var (id, s') := (AsUsize(a.id), Step(s, a));
    if s' != s {
      if a.StartAccept? {
        TakePartition(s.listeners, ListenerIds(s.strands), id);
      } else {
        TakePartition(s.streams, StreamIds(s.strands), id);
      }
      HoldersAdd(s.strands, a.t, s'.strands[a.t]);
      assert StreamIds(s.strands) + {} == StreamIds(s.strands);
      assert ListenerIds(s.strands) + {} == ListenerIds(s.strands);
    }
  }

  lemma EndStep(s: State, a: Action)
    requires Inv(s) && Enabled(s, a) && (a.EndUse? || a.EndUpgrade? || a.EndAccept? || a.Register?)
    requires CanAllocate(s.streams) && CanAllocate(s.listeners)
    ensures Inv(Step(s, a))
  {
    hide StreamIds, ListenerIds, OneHolder, Partition;
    var (t, q, ids, lids) := (a.t, s.strands[a.t], StreamIds(s.strands), ListenerIds(s.strands));
    HoldersRemove(s.strands, t);
    assert ids - {} == ids && lids - {} == lids;
    match a
    case EndUse(_) => PutPartition(s.streams, ids, q.id, q.stream);
    case EndUpgrade(_, ok) =>
      if ok { PutPartition(s.streams, ids, q.id, Tls(q.conn)); } else { ReleasePartition(s.streams, ids, q.id); }
    case EndAccept(_, accepted) =>
      PutPartition(s.listeners, lids, q.id, q.listener);
      if accepted.Some? {
        var rest := s.strands - {t};
        HoldersAdd(rest, t, Accepted(accepted.value));
        assert rest[t := Accepted(accepted.value)] == s.strands[t := Accepted(accepted.value)];
        assert StreamIds(rest) + {} == StreamIds(rest) && ListenerIds(rest) + {} == ListenerIds(rest);
      }
    case Register(_) => AllocatePartition(s.streams, ids, PlainTcp(q.conn));
  }

  /** Whatever the strands do, each id of either registry is exactly one of live, reserved by one
      strand, or once on the free list, and there are at most MAX_SOCKETS. */
  lemma StepKeepsInv(s: State, a: Action)
    requires Inv(s) && Enabled(s, a)
    ensures CanAllocate(s.streams) && CanAllocate(s.listeners)
    ensures Inv(Step(s, a))
  {
    InvAllocates(s);
    hide StreamIds, ListenerIds, OneHolder, Partition, Allocate, Free;
    match a
    case Listen(listener) => AllocatePartition(s.listeners, ListenerIds(s.strands), listener);
    case Connect(conn) => AllocatePartition(s.streams, StreamIds(s.strands), PlainTcp(conn));
    case Close(id) =>
      FreePartition(s.streams, StreamIds(s.strands), AsUsize(id));
      FreePartition(s.listeners, ListenerIds(s.strands), AsUsize(id));
    case StartUse(_, _) => StartStep(s, a);
    case StartUpgrade(_, _) => StartStep(s, a);
    case StartAccept(_, _) => StartStep(s, a);
    case EndUse(_) => EndStep(s, a);
    case EndUpgrade(_, _) => EndStep(s, a);
    case EndAccept(_, _) => EndStep(s, a);
    case Register(_) => EndStep(s, a);
  }

  lemma InitInv()
    ensures Inv(State(Registry([], []), Registry([], []), map[]))
  {
  }

  // ---- An id keeps its connection ----

  /** The id stands for the connection: it is in its slot, or with the strand that took it out. */
  ghost predicate Bound(s: State, id: nat, conn: nat) {
    || (Live(s.streams, id) && s.streams.sockets[id].value.conn == conn)
    || (exists t :: t in s.strands && HeldAs(s.strands[t], id, conn))
  }

  predicate HeldAs(q: Strand, id: nat, conn: nat) {
    || (q.Using? && q.id == id && q.stream.conn == conn)
    || (q.Upgrading? && q.id == id && q.conn == conn)
  }

  /** The two steps that end a connection's hold on its id. */
  predicate Ends(s: State, a: Action, id: nat) {
    match a
    case Close(i) => AsUsize(i) == id && Live(s.streams, id)
    case EndUpgrade(t, ok) => t in s.strands && s.strands[t].Upgrading? && s.strands[t].id == id && !ok
    case _ => false
  }

  lemma BoundOnce(s: State, id: nat, c: nat, d: nat)
    requires Inv(s) && Bound(s, id, c) && Bound(s, id, d)
    ensures c == d
  {
    forall t | t in s.strands && HoldsStream(s.strands[t]) ensures s.strands[t].id in StreamIds(s.strands) {}
  }

  /** An id is live or reserved exactly when it stands for some connection. */
  lemma BoundIff(s: State, id: nat)
    requires Inv(s)
    ensures (exists c :: Bound(s, id, c)) <==> Live(s.streams, id) || id in StreamIds(s.strands)
    ensures id in s.streams.freeIds ==> !exists c :: Bound(s, id, c)
  {
    forall t | t in s.strands && HoldsStream(s.strands[t]) ensures s.strands[t].id in StreamIds(s.strands) {}
    if Live(s.streams, id) {
      assert Bound(s, id, s.streams.sockets[id].value.conn);
    }
    if id in StreamIds(s.strands) {
      var t :| t in s.strands && HoldsStream(s.strands[t]) && s.strands[t].id == id;
      var c := if s.strands[t].Using? then s.strands[t].stream.conn else s.strands[t].conn;
      assert HeldAs(s.strands[t], id, c);
      assert Bound(s, id, c);
    }
  }

  /** No other step, by whatever strand, makes an id lose its connection. */
  lemma BoundStep(s: State, a: Action, id: nat, conn: nat)
    requires Inv(s) && Enabled(s, a) && Bound(s, id, conn) && !Ends(s, a, id)
    requires CanAllocate(s.streams) && CanAllocate(s.listeners)
    ensures Bound(Step(s, a), id, conn)
  {
    var s' := Step(s, a);
    AllocateKeepsLive(s, a, id);
    if Live(s.streams, id) && s.streams.sockets[id].value.conn == conn {
      if (a.StartUse? || a.StartUpgrade?) && AsUsize(a.id) == id && s' != s {
        assert HeldAs(s'.strands[a.t], id, conn);
      }
    } else {
      var t :| t in s.strands && HeldAs(s.strands[t], id, conn);
      HolderReserves(s, t);
      if t in s'.strands {
        assert s'.strands[t] == s.strands[t];
      }
    }
  }

  lemma HolderReserves(s: State, t: nat)
    requires Inv(s) && t in s.strands && HoldsStream(s.strands[t])
    ensures s.strands[t].id in StreamIds(s.strands) && s.strands[t].id < |s.streams.sockets|
    ensures !Live(s.streams, s.strands[t].id)
    ensures forall u :: u in s.strands && u != t && HoldsStream(s.strands[u]) ==> s.strands[u].id != s.strands[t].id
  {
  }

  lemma AllocateKeepsLive(s: State, a: Action, id: nat)
    requires Inv(s) && Enabled(s, a) && CanAllocate(s.streams) && CanAllocate(s.listeners)
    ensures (a.Connect? || a.Register?) && Live(s.streams, id) ==>
              Live(Step(s, a).streams, id) && Step(s, a).streams.sockets[id] == s.streams.sockets[id]
  {
    hide StreamIds, Partition, Allocate;
    if a.Connect? { AllocatePartition(s.streams, StreamIds(s.strands), PlainTcp(a.conn)); }
    if a.Register? { AllocatePartition(s.streams, StreamIds(s.strands), PlainTcp(s.strands[a.t].conn)); }
  }

  ghost predicate CanRun(s: State, run: seq<Action>)
    requires Inv(s)
    decreases run
  {
    run == [] || (Enabled(s, run[0]) && (StepKeepsInv(s, run[0]); CanRun(Step(s, run[0]), run[1..])))
  }

  ghost function Run(s: State, run: seq<Action>): State
    requires Inv(s) && CanRun(s, run)
    decreases run
  {
    if run == [] then s else (StepKeepsInv(s, run[0]); Run(Step(s, run[0]), run[1..]))
  }

  /** Some step of the run closes the id, or fails to upgrade it. */
  ghost predicate RunEnds(s: State, run: seq<Action>, id: nat)
    requires Inv(s) && CanRun(s, run)
    decreases run
  {
    run != [] && (Ends(s, run[0], id) || (StepKeepsInv(s, run[0]); RunEnds(Step(s, run[0]), run[1..], id)))
  }

  /** So an id that a program holds means the same connection for as long as nobody closes it. */
  lemma {:induction false} IdKeepsConnection(s: State, run: seq<Action>, id: nat, conn: nat)
    requires Inv(s) && CanRun(s, run) && Bound(s, id, conn) && !RunEnds(s, run, id)
    ensures Inv(Run(s, run)) && Bound(Run(s, run), id, conn)
    decreases run
  {
    hide Inv, Enabled, Step, Bound, Ends;
    if run != [] {
      StepKeepsInv(s, run[0]);
      BoundStep(s, run[0], id, conn);
      IdKeepsConnection(Step(s, run[0]), run[1..], id, conn);
    }
  }

  /** And a connection gets an id only by Connect or Register, and one that stood for nothing. */
  lemma NewlyBound(s: State, a: Action, id: nat, conn: nat)
    requires Inv(s) && Enabled(s, a) && CanAllocate(s.streams) && CanAllocate(s.listeners)
    requires !Bound(s, id, conn) && Bound(Step(s, a), id, conn)
    ensures a.Connect? || a.Register?
    ensures conn == if a.Connect? then a.conn else s.strands[a.t].conn
    ensures forall c :: !Bound(s, id, c)
  {
    assert a.Connect? || a.Register? by {
      if !a.Connect? && !a.Register? { OldBound(s, a, id, conn); }
    }
    var socket := PlainTcp(if a.Connect? then a.conn else s.strands[a.t].conn);
    AllocatePartition(s.streams, StreamIds(s.strands), socket);
    BoundIff(s, id);
  }

  lemma OldBound(s: State, a: Action, id: nat, conn: nat)
    requires Inv(s) && Enabled(s, a) && CanAllocate(s.streams) && CanAllocate(s.listeners)
    requires !a.Connect? && !a.Register? && Bound(Step(s, a), id, conn)
    ensures Bound(s, id, conn)
  {
    var s' := Step(s, a);
    if Live(s'.streams, id) && s'.streams.sockets[id].value.conn == conn {
      if (a.EndUse? || a.EndUpgrade?) && s.strands[a.t].id == id { assert HeldAs(s.strands[a.t], id, conn); }
    } else {
      var t :| t in s'.strands && HeldAs(s'.strands[t], id, conn);
      assert t in s.strands && HeldAs(s.strands[t], id, conn) ==> Bound(s, id, conn);
    }
  }

  /** Exactly when `close` frees a stream id: when it is live. Then the id stands for nothing and no
      listener is touched. */
  lemma CloseFreesStreamIff(s: State, i: Int64, id: nat)
    requires Inv(s) && CanAllocate(s.streams) && CanAllocate(s.listeners)
    ensures var s' := Step(s, Close(i));
            && (AsUsize(i) == id && Live(s.streams, id) <==> id in s'.streams.freeIds && id !in s.streams.freeIds)
            && (AsUsize(i) == id && Live(s.streams, id) ==>
                s'.listeners == s.listeners && forall c :: !Bound(s', id, c))
  {
    var s' := Step(s, Close(i));
    StepKeepsInv(s, Close(i));
    AppendFree(s.streams.freeIds, AsUsize(i));
    hide Bound;
    BoundIff(s', id);
  }

  // ---- The same for listeners ----

  /** The id stands for the listener: it is in its slot, or with the strand that accepts on it. */
  ghost predicate ListenerBound(s: State, id: nat, listener: nat) {
    || (Live(s.listeners, id) && s.listeners.sockets[id].value == listener)
    || (exists t :: t in s.strands && AcceptsAs(s.strands[t], id, listener))
  }

  predicate AcceptsAs(q: Strand, id: nat, listener: nat) {
    q.Accepting? && q.id == id && q.listener == listener
  }

  /** A close that ends a listener: there is one at the id, and no live stream with the same number. */
  predicate EndsListener(s: State, a: Action, id: nat) {
    a.Close? && AsUsize(a.id) == id && !Live(s.streams, id) && Live(s.listeners, id)
  }

  /** Exactly when `close` frees a listener; a stream that another strand is using is not live, so
      closing its id can free the listener with that number. */
  lemma CloseFreesListenerIff(s: State, i: Int64, id: nat)
    requires Inv(s) && CanAllocate(s.streams) && CanAllocate(s.listeners)
    ensures var s' := Step(s, Close(i));
            && (EndsListener(s, Close(i), id) <==> id in s'.listeners.freeIds && id !in s.listeners.freeIds)
            && (EndsListener(s, Close(i), id) ==> s'.streams == s.streams && forall l :: !ListenerBound(s', id, l))
  {
    var s' := Step(s, Close(i));
    AppendFree(s.listeners.freeIds, AsUsize(i));
    if EndsListener(s, Close(i), id) {
      StepKeepsInv(s, Close(i));
      forall t | t in s'.strands && s'.strands[t].Accepting? ensures s'.strands[t].id in ListenerIds(s'.strands) {}
    }
  }

  lemma AcceptorReserves(s: State, t: nat)
    requires Inv(s) && t in s.strands && s.strands[t].Accepting?
    ensures s.strands[t].id in ListenerIds(s.strands) && s.strands[t].id < |s.listeners.sockets|
    ensures !Live(s.listeners, s.strands[t].id)
    ensures forall u :: u in s.strands && u != t && s.strands[u].Accepting? ==> s.strands[u].id != s.strands[t].id
  {
  }

  lemma ListenKeepsLive(s: State, a: Action, id: nat)
    requires Inv(s) && Enabled(s, a) && CanAllocate(s.streams) && CanAllocate(s.listeners)
    ensures a.Listen? && Live(s.listeners, id) ==>
              Live(Step(s, a).listeners, id) && Step(s, a).listeners.sockets[id] == s.listeners.sockets[id]
  {
    hide ListenerIds, Partition, Allocate;
    if a.Listen? { AllocatePartition(s.listeners, ListenerIds(s.strands), a.listener); }
  }

  lemma ListenerBoundStep(s: State, a: Action, id: nat, listener: nat)
    requires Inv(s) && Enabled(s, a) && ListenerBound(s, id, listener) && !EndsListener(s, a, id)
    requires CanAllocate(s.streams) && CanAllocate(s.listeners)
    ensures ListenerBound(Step(s, a), id, listener)
  {
    var s' := Step(s, a);
    ListenKeepsLive(s, a, id);
    if Live(s.listeners, id) && s.listeners.sockets[id].value == listener {
      if a.StartAccept? && AsUsize(a.id) == id {
        assert AcceptsAs(s'.strands[a.t], id, listener);
      }
    } else {
      var t :| t in s.strands && AcceptsAs(s.strands[t], id, listener);
      AcceptorReserves(s, t);
      if t in s'.strands && s'.strands[t].Accepting? {
        assert s'.strands[t] == s.strands[t];
      }
    }
  }

  ghost predicate RunEndsListener(s: State, run: seq<Action>, id: nat)
    requires Inv(s) && CanRun(s, run)
    decreases run
  {
    run != []
    && (EndsListener(s, run[0], id) || (StepKeepsInv(s, run[0]); RunEndsListener(Step(s, run[0]), run[1..], id)))
  }

  /** A listener id means the same listener for as long as no such close comes. */
  lemma {:induction false} IdKeepsListener(s: State, run: seq<Action>, id: nat, listener: nat)
    requires Inv(s) && CanRun(s, run) && ListenerBound(s, id, listener) && !RunEndsListener(s, run, id)
    ensures Inv(Run(s, run)) && ListenerBound(Run(s, run), id, listener)
    decreases run
  {
    hide Inv, Enabled, Step, ListenerBound, EndsListener;
    if run != [] {
      StepKeepsInv(s, run[0]);
      ListenerBoundStep(s, run[0], id, listener);
      IdKeepsListener(Step(s, run[0]), run[1..], id, listener);
    }
  }

  // ---- What kind of stream an id stands for ----

  /** The id stands for that very stream; in the handshake it is a plain one still. */
  ghost predicate StreamAt(s: State, id: nat, stream: Stream) {
    || (Live(s.streams, id) && s.streams.sockets[id].value == stream)
    || (exists t :: t in s.strands && HeldStream(s.strands[t], id, stream))
  }

  predicate HeldStream(q: Strand, id: nat, stream: Stream) {
    || (q.Using? && q.id == id && q.stream == stream)
    || (q.Upgrading? && q.id == id && stream == PlainTcp(q.conn))
  }

  /** A handshake on the id succeeds. */
  predicate Upgrades(s: State, a: Action, id: nat) {
    a.EndUpgrade? && a.ok && a.t in s.strands && s.strands[a.t].Upgrading? && s.strands[a.t].id == id
  }

  lemma StreamStep(s: State, a: Action, id: nat, stream: Stream)
    requires Inv(s) && Enabled(s, a) && StreamAt(s, id, stream) && !Ends(s, a, id)
    requires CanAllocate(s.streams) && CanAllocate(s.listeners)
    ensures StreamAt(Step(s, a), id, if Upgrades(s, a, id) then Tls(stream.conn) else stream)
  {
    var s' := Step(s, a);
    AllocateKeepsLive(s, a, id);
    if Live(s.streams, id) && s.streams.sockets[id].value == stream {
      if a.EndUpgrade? { HolderReserves(s, a.t); }
      if (a.StartUse? || a.StartUpgrade?) && AsUsize(a.id) == id && s' != s {
        assert HeldStream(s'.strands[a.t], id, stream);
      }
    } else {
      var t :| t in s.strands && HeldStream(s.strands[t], id, stream);
      HolderReserves(s, t);
      if t in s'.strands {
        if a.EndUpgrade? { HolderReserves(s, a.t); }
        assert s'.strands[t] == s.strands[t];
      }
    }
  }

  ghost predicate RunUpgrades(s: State, run: seq<Action>, id: nat)
    requires Inv(s) && CanRun(s, run)
    decreases run
  {
    run != [] && (Upgrades(s, run[0], id) || (StepKeepsInv(s, run[0]); RunUpgrades(Step(s, run[0]), run[1..], id)))
  }

  /** Until it is closed an id stands for the same stream, and for a TLS stream over the same
      connection from the moment that a handshake on it succeeds. */
  lemma {:induction false} IdKeepsStream(s: State, run: seq<Action>, id: nat, stream: Stream)
    requires Inv(s) && CanRun(s, run) && StreamAt(s, id, stream) && !RunEnds(s, run, id)
    ensures Inv(Run(s, run))
    ensures StreamAt(Run(s, run), id, if RunUpgrades(s, run, id) then Tls(stream.conn) else stream)
    decreases run
  {
    hide Inv, Enabled, Step, StreamAt, Ends, Upgrades;
    if run != [] {
      StepKeepsInv(s, run[0]);
      StreamStep(s, run[0], id, stream);
      IdKeepsStream(Step(s, run[0]), run[1..], id,
          if Upgrades(s, run[0], id) then Tls(stream.conn) else stream);
    }
  }

  // ---- Taking and putting back ----

  /** A use takes the stream out, so that nobody else gets it, and leaves everything as it was. */
  lemma UseRestores(s: State, t: nat, i: Int64)
    requires Inv(s) && t !in s.strands && CanAllocate(s.streams) && CanAllocate(s.listeners)
    ensures var (id, s1) := (AsUsize(i), Step(s, StartUse(t, i)));
            && (!Live(s.streams, id) ==> s1 == s)
            && (Live(s.streams, id) ==>
                  && Enabled(s1, EndUse(t)) && CanAllocate(s1.streams) && CanAllocate(s1.listeners)
                  && !Live(s1.streams, id) && id in StreamIds(s1.strands)
                  && Step(s1, EndUse(t)) == s)
  {
    var (id, s1) := (AsUsize(i), Step(s, StartUse(t, i)));
    if Live(s.streams, id) {
      assert s1.strands[t] == Using(id, s.streams.sockets[id].value);
      var s2 := Step(s1, EndUse(t));
      assert s2.strands == s.strands;
      assert s2.streams.sockets == s.streams.sockets;
    }
  }

  /** So does an accept that fails; one that succeeds leaves the new connection to be registered. */
  lemma AcceptRestores(s: State, t: nat, i: Int64, accepted: Option<nat>)
    requires Inv(s) && t !in s.strands && CanAllocate(s.streams) && CanAllocate(s.listeners)
    ensures var (id, s1) := (AsUsize(i), Step(s, StartAccept(t, i)));
            && (!Live(s.listeners, id) ==> s1 == s)
            && (Live(s.listeners, id) ==>
                  && Enabled(s1, EndAccept(t, accepted)) && CanAllocate(s1.streams) && CanAllocate(s1.listeners)
                  && !Live(s1.listeners, id) && id in ListenerIds(s1.strands)
                  && Step(s1, EndAccept(t, accepted))
                     == if accepted.None? then s else s.(strands := s.strands[t := Accepted(accepted.value)]))
  {
    var (id, s1) := (AsUsize(i), Step(s, StartAccept(t, i)));
    if Live(s.listeners, id) {
      assert s1.strands[t] == Accepting(id, s.listeners.sockets[id].value);
      var s2 := Step(s1, EndAccept(t, accepted));
      assert s2.strands == if accepted.None? then s.strands else s.strands[t := Accepted(accepted.value)];
      assert s2.listeners.sockets == s.listeners.sockets;
    }
  }

  /** A TLS stream, a stream in use and an unknown id are not taken for a handshake. */
  lemma UpgradeTakesPlain(s: State, t: nat, i: Int64)
    requires Inv(s) && t !in s.strands && CanAllocate(s.streams) && CanAllocate(s.listeners)
    ensures var (id, s1) := (AsUsize(i), Step(s, StartUpgrade(t, i)));
            if Live(s.streams, id) && s.streams.sockets[id].value.PlainTcp?
            then Enabled(s1, EndUpgrade(t, true)) && Enabled(s1, EndUpgrade(t, false)) && !Live(s1.streams, id)
            else s1 == s
  {
  }

  /** A negative id is larger than any index, so it stands for nothing. */
  lemma NegativeIdIsNothing(s: State, t: nat, i: Int64)
    requires Inv(s) && i < 0 && CanAllocate(s.streams) && CanAllocate(s.listeners)
    ensures Step(s, Close(i)) == s
    ensures t !in s.strands ==>
              Step(s, StartUse(t, i)) == s && Step(s, StartUpgrade(t, i)) == s && Step(s, StartAccept(t, i)) == s
  {
  }

  /** A new connection gets an id that stood for nothing, as a plain stream, unless the registry is full. */
  lemma ConnectBinds(s: State, conn: nat)
    requires Inv(s) && CanAllocate(s.streams) && CanAllocate(s.listeners)
    ensures var s' := Step(s, Connect(conn));
            if s.streams.freeIds == [] && |s.streams.sockets| == MAX_SOCKETS then s' == s
            else exists id: nat :: !Live(s.streams, id) && id !in StreamIds(s.strands)
                                   && Live(s'.streams, id) && s'.streams.sockets[id].value == PlainTcp(conn)
  {
    hide StreamIds, Partition, Allocate;
    AllocatePartition(s.streams, StreamIds(s.strands), PlainTcp(conn));
    var id := Allocate(s.streams, PlainTcp(conn)).1;
    if id.Some? { assert Live(Step(s, Connect(conn)).streams, id.value); }
  }

  /** So does a new listener. */
  lemma ListenBinds(s: State, listener: nat)
    requires Inv(s) && CanAllocate(s.streams) && CanAllocate(s.listeners)
    ensures var s' := Step(s, Listen(listener));
            if s.listeners.freeIds == [] && |s.listeners.sockets| == MAX_SOCKETS then s' == s
            else exists id: nat :: !Live(s.listeners, id) && id !in ListenerIds(s.strands)
                                   && Live(s'.listeners, id) && s'.listeners.sockets[id].value == listener
  {
    hide ListenerIds, Partition, Allocate;
    AllocatePartition(s.listeners, ListenerIds(s.strands), listener);
    var id := Allocate(s.listeners, listener).1;
    if id.Some? { assert Live(Step(s, Listen(listener)).listeners, id.value); }
  }

  /** And an accepted connection when it is registered. */
  lemma RegisterBinds(s: State, t: nat)
    requires Inv(s) && Enabled(s, Register(t)) && CanAllocate(s.streams) && CanAllocate(s.listeners)
    ensures var s' := Step(s, Register(t));
            && t !in s'.strands
            && (s.streams.freeIds != [] || |s.streams.sockets| < MAX_SOCKETS ==>
                  exists id: nat :: !Live(s.streams, id) && id !in StreamIds(s.strands) && Live(s'.streams, id)
                                    && s'.streams.sockets[id].value == PlainTcp(s.strands[t].conn))
  {
    hide StreamIds, Partition, Allocate;
    var socket := PlainTcp(s.strands[t].conn);
    AllocatePartition(s.streams, StreamIds(s.strands), socket);
    var id := Allocate(s.streams, socket).1;
    if id.Some? { assert Live(Step(s, Register(t)).streams, id.value); }
  }
}
