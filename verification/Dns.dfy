/** Host name lookups that share one worker job per host (crates/runtime/src/dns.rs). The cache
    and the in-flight table are objects under a lock; requesters and workers interleave between
    their critical sections. Clock and `getaddrinfo` are inputs of the steps. */
module Dns {
  import opened Wrappers

  type Host = string
  type Addrs = seq<string>

  const CACHE_TTL: nat := 60
  const CACHE_MAX: nat := 256

  datatype CacheEntry = CacheEntry(addrs: Addrs, expires: nat)

  predicate Hit(entries: map<Host, CacheEntry>, host: Host, now: nat) {
    host in entries && now < entries[host].expires
  }

  /** The cache after a `put` that makes room by dropping `victim`. */
  function AfterPut(entries: map<Host, CacheEntry>, host: Host, addrs: Addrs, now: nat,
                    victim: Host): map<Host, CacheEntry> {
    var room := if |entries| >= CACHE_MAX then entries - {victim} else entries;
    room[host := CacheEntry(addrs, now + CACHE_TTL)]
  }

  /** The victim is any key of the map, whichever the iteration yields first. */
  predicate CanEvict(entries: map<Host, CacheEntry>, victim: Host) {
    |entries| >= CACHE_MAX ==> victim in entries
  }

  class DnsCache {
    var entries: map<Host, CacheEntry>

    constructor ()
      ensures entries == map[]
    {
      entries := map[];
    }

    method Get(host: Host, now: nat) returns (addrs: Option<Addrs>)
      modifies this
      ensures Hit(old(entries), host, now) ==> addrs == Some(old(entries)[host].addrs) && entries == old(entries)
      ensures !Hit(old(entries), host, now) ==> addrs == None && entries == old(entries) - {host}
    {
      if host in entries && now < entries[host].expires {
        return Some(entries[host].addrs);
      }
      entries := entries - {host};
      return None;
    }

    method Put(host: Host, addrs: Addrs, now: nat) returns (ghost victim: Host)
      modifies this
      ensures CanEvict(old(entries), victim) && entries == AfterPut(old(entries), host, addrs, now, victim)
      ensures old(|entries|) <= CACHE_MAX ==> |entries| <= CACHE_MAX
    {
      victim := host;
      if |entries| >= CACHE_MAX {
        assert entries.Keys != {};
        var k :| k in entries;
        victim := k;
        entries := entries - {k};
      }
      entries := entries[host := CacheEntry(addrs, now + CACHE_TTL)];
      if old(|entries|) <= CACHE_MAX { PutBounded(old(entries), host, addrs, now, victim); }
    }
  }

  /** What was put is found for exactly CACHE_TTL, and nobody else's entry changes but the victim's. */
  lemma PutIsFound(entries: map<Host, CacheEntry>, host: Host, addrs: Addrs, now: nat, victim: Host, h: Host, t: nat)
    ensures var after := AfterPut(entries, host, addrs, now, victim);
            && (h == host ==> (Hit(after, h, t) <==> t < now + CACHE_TTL) && after[h].addrs == addrs)
            && (h != host && (|entries| < CACHE_MAX || h != victim) ==>
                  (h in after <==> h in entries) && (h in after ==> after[h] == entries[h]))
  {
  }

  lemma PutBounded(entries: map<Host, CacheEntry>, host: Host, addrs: Addrs, now: nat, victim: Host)
    requires |entries| <= CACHE_MAX && CanEvict(entries, victim)
    ensures |AfterPut(entries, host, addrs, now, victim)| <= CACHE_MAX
  {
    var room := if |entries| >= CACHE_MAX then entries - {victim} else entries;
    assert |entries.Keys| == |entries|;
    assert room.Keys == if |entries| >= CACHE_MAX then entries.Keys - {victim} else entries.Keys;
    assert |room| == |room.Keys| < CACHE_MAX;
    var after := AfterPut(entries, host, addrs, now, victim);
    assert after.Keys == room.Keys + {host};
    assert |after| == |after.Keys|;
  }

  /** A requester is its reply channel: the senders of an entry are requester numbers. */
  function Attach(inFlight: map<Host, seq<nat>>, host: Host, r: nat): map<Host, seq<nat>> {
    if host in inFlight then inFlight[host := inFlight[host] + [r]] else inFlight[host := [r]]
  }

  function Senders(inFlight: map<Host, seq<nat>>, host: Host): seq<nat> {
    if host in inFlight then inFlight[host] else []
  }

  class InFlight {
    var entries: map<Host, seq<nat>>

    method AttachReply(host: Host, r: nat) returns (becameLeader: bool)
      modifies this
      ensures entries == Attach(old(entries), host, r)
      ensures becameLeader == (host !in old(entries))
    {
      if host in entries {
        entries := entries[host := entries[host] + [r]];
        becameLeader := false;
      } else {
        entries := entries[host := [r]];
        becameLeader := true;
      }
    }

    method Remove(host: Host) returns (senders: seq<nat>)
      modifies this
      ensures senders == Senders(old(entries), host) && entries == old(entries) - {host}
    {
      senders := if host in entries then entries[host] else [];
      entries := entries - {host};
    }
  }

  // ---- Requesters and workers between their critical sections ----

  datatype Requester =
    | Start(host: Host)                          // before the cache lookup
    | Missed(host: Host)                         // before attaching
    | Leading(host: Host)                        // made the entry, before enqueueing the job
    | Failed(host: Host)                         // could not enqueue, before removing the entry
    | Draining(host: Host, senders: seq<nat>)    // sending empty replies
    | Waiting(host: Host)                        // in recv
    | Replied(host: Host, addrs: Addrs)          // a reply is in its channel
    | Done(host: Host, addrs: Addrs)             // returned

  datatype Worker =
    | Idle
    | Resolving(host: Host)                      // took the job, in getaddrinfo
    | Resolved(host: Host, addrs: Addrs)         // before writing the cache
    | Cached(host: Host, addrs: Addrs)           // before removing the entry
    | Fanning(host: Host, addrs: Addrs, senders: seq<nat>)

  /** Who is to remove an entry. */
  datatype Owner = Leader(r: nat) | Job | ByWorker(w: nat)

  /** Where the sending half of a requester's channel is. */
  datatype Place = InEntry(host: Host) | WithWorker(w: nat) | WithDrainer(r: nat)

  /** owner, place and produced are history: the program does not keep them and no step looks at
      them. produced holds every answer `getaddrinfo` gave, with the host it was asked for. */
  datatype State = State(
    now: nat, cache: map<Host, CacheEntry>, inFlight: map<Host, seq<nat>>, jobs: seq<Host>,
    reqs: map<nat, Requester>, workers: seq<Worker>,
    owner: map<Host, Owner>, place: map<nat, Place>, produced: set<(Host, Addrs)>)

  datatype Action =
    | Tick                                 // time passes
    | Request(r: nat, host: Host)          // a strand calls resolve
    | Advance(r: nat)                      // a requester takes its next step
    | Take(w: nat)                         // a worker takes a job
    | Answer(w: nat, addrs: Addrs)         // getaddrinfo returns
    | Put(w: nat, victim: Host)            // a worker writes the cache
    | Fan(w: nat)                          // a worker removes the entry, sends, or finishes

  predicate CanAdvance(q: Requester) {
    !q.Waiting? && !q.Done?
  }

  predicate Enabled(s: State, a: Action) {
    match a
    case Tick => true
    case Request(r, host) => r !in s.reqs
    case Advance(r) => r in s.reqs && CanAdvance(s.reqs[r])
    case Take(w) => w < |s.workers| && s.workers[w].Idle? && s.jobs != []
    case Answer(w, addrs) => w < |s.workers| && s.workers[w].Resolving?
    case Put(w, victim) => w < |s.workers| && s.workers[w].Resolved? && CanEvict(s.cache, victim)
    case Fan(w) => w < |s.workers| && (s.workers[w].Cached? || s.workers[w].Fanning?)
  }

  /** An empty name is answered at once. */
  function FirstState(host: Host): Requester {
    if host == "" then Done(host, []) else Start(host)
  }

  function LookUp(s: State, r: nat, host: Host): State {
    if Hit(s.cache, host, s.now) then s.(reqs := s.reqs[r := Done(host, s.cache[host].addrs)])
    else s.(cache := s.cache - {host}, reqs := s.reqs[r := Missed(host)])
  }

  function AttachStep(s: State, r: nat, host: Host): State {
    s.(inFlight := Attach(s.inFlight, host, r),
       reqs := s.reqs[r := if host in s.inFlight then Waiting(host) else Leading(host)],
       owner := if host in s.inFlight then s.owner else s.owner[host := Leader(r)],
       place := s.place[r := InEntry(host)])
  }

  /** The pool is there exactly when some worker could be spawned. */
  function Enqueue(s: State, r: nat, host: Host): State {
    if s.workers == [] then s.(reqs := s.reqs[r := Failed(host)])
    else s.(jobs := s.jobs + [host], reqs := s.reqs[r := Waiting(host)], owner := s.owner[host := Job])
  }

  function Move(place: map<nat, Place>, senders: seq<nat>, to: Place): map<nat, Place> {
    map r | r in place.Keys + (set x | x in senders) :: if r in senders then to else place[r]
  }

  function DrainEntry(s: State, r: nat, host: Host): State {
    var senders := Senders(s.inFlight, host);
    s.(inFlight := s.inFlight - {host}, reqs := s.reqs[r := Draining(host, senders)],
       owner := s.owner - {host}, place := Move(s.place, senders, WithDrainer(r)))
  }

  /** A send to a channel; only a requester in recv will look at it. */
  function Deliver(reqs: map<nat, Requester>, to: nat, addrs: Addrs): map<nat, Requester> {
    if to in reqs && reqs[to].Waiting? then reqs[to := Replied(reqs[to].host, addrs)] else reqs
  }

  function DrainNext(s: State, r: nat, host: Host, senders: seq<nat>): State {
    if senders == [] then s.(reqs := s.reqs[r := Done(host, [])])
    else
      s.(reqs := Deliver(s.reqs[r := Draining(host, senders[1..])], senders[0], []),
         place := s.place - {senders[0]})
  }

  function AdvanceRequester(s: State, r: nat): State
    requires r in s.reqs && CanAdvance(s.reqs[r])
  {
    match s.reqs[r]
    case Start(host) => LookUp(s, r, host)
    case Missed(host) => AttachStep(s, r, host)
    case Leading(host) => Enqueue(s, r, host)
    case Failed(host) => DrainEntry(s, r, host)
    case Draining(host, senders) => DrainNext(s, r, host, senders)
    case Replied(host, addrs) => s.(reqs := s.reqs[r := Done(host, addrs)])
  }

  function TakeJob(s: State, w: nat): State
    requires w < |s.workers| && s.jobs != []
  {
    s.(jobs := s.jobs[1..], workers := s.workers[w := Resolving(s.jobs[0])],
       owner := s.owner[s.jobs[0] := ByWorker(w)])
  }

  /** An empty answer is not cached. */
  function AnswerStep(s: State, w: nat, addrs: Addrs): State
    requires w < |s.workers| && s.workers[w].Resolving?
  {
    var host := s.workers[w].host;
    s.(workers := s.workers[w := if addrs == [] then Cached(host, []) else Resolved(host, addrs)],
       produced := s.produced + {(host, addrs)})
  }

  function PutStep(s: State, w: nat, victim: Host): State
    requires w < |s.workers| && s.workers[w].Resolved?
  {
    var (host, addrs) := (s.workers[w].host, s.workers[w].addrs);
    s.(cache := AfterPut(s.cache, host, addrs, s.now, victim), workers := s.workers[w := Cached(host, addrs)])
  }

  function FanStep(s: State, w: nat): State
    requires w < |s.workers| && (s.workers[w].Cached? || s.workers[w].Fanning?)
  {
    match s.workers[w]
    case Cached(host, addrs) =>
      var senders := Senders(s.inFlight, host);
      s.(inFlight := s.inFlight - {host}, workers := s.workers[w := Fanning(host, addrs, senders)],
         owner := s.owner - {host}, place := Move(s.place, senders, WithWorker(w)))
    case Fanning(host, addrs, senders) =>
      if senders == [] then s.(workers := s.workers[w := Idle])
      else
        s.(workers := s.workers[w := Fanning(host, addrs, senders[1..])],
           reqs := Deliver(s.reqs, senders[0], addrs), place := s.place - {senders[0]})
  }

  function Step(s: State, a: Action): State
    requires Enabled(s, a)
  {
    match a
    case Tick => s.(now := s.now + 1)
    case Request(r, host) => s.(reqs := s.reqs[r := FirstState(host)])
    case Advance(r) => AdvanceRequester(s, r)
    case Take(w) => TakeJob(s, w)
    case Answer(w, addrs) => AnswerStep(s, w, addrs)
    case Put(w, victim) => PutStep(s, w, victim)
    case Fan(w) => FanStep(s, w)
  }

  ghost predicate Init(s: State) {
    && s.cache == map[] && s.inFlight == map[] && s.jobs == [] && s.reqs == map[]
    && (forall w :: 0 <= w < |s.workers| ==> s.workers[w].Idle?)
    && s.owner == map[] && s.place == map[] && s.produced == {}
  }

  predicate CanRun(s: State, run: seq<Action>)
    decreases run
  {
    run == [] || (Enabled(s, run[0]) && CanRun(Step(s, run[0]), run[1..]))
  }

  function Run(s: State, run: seq<Action>): State
    requires CanRun(s, run)
    decreases run
  {
    if run == [] then s else Run(Step(s, run[0]), run[1..])
  }

  // ---- The invariant ----

  /** The worker has the job but has not removed the entry. */
  predicate Holds(w: Worker) {
    w.Resolving? || w.Resolved? || w.Cached?
  }

  predicate Leads(q: Requester) {
    q.Leading? || q.Failed?
  }

  predicate OwnedBy(owner: map<Host, Owner>, h: Host, o: Owner) {
    h in owner && owner[h] == o
  }

  predicate OwnerFits(reqs: map<nat, Requester>, jobs: seq<Host>, workers: seq<Worker>, h: Host, o: Owner) {
    match o
    case Leader(r) => r in reqs && Leads(reqs[r]) && reqs[r].host == h
    case Job => h in jobs
    case ByWorker(w) => w < |workers| && Holds(workers[w]) && workers[w].host == h
  }

  ghost predicate OwnersFit(owner: map<Host, Owner>, reqs: map<nat, Requester>, jobs: seq<Host>, workers: seq<Worker>) {
    forall h :: h in owner ==> OwnerFits(reqs, jobs, workers, h, owner[h])
  }

  ghost predicate LeadersOwn(owner: map<Host, Owner>, reqs: map<nat, Requester>) {
    forall r :: r in reqs && Leads(reqs[r]) ==> OwnedBy(owner, reqs[r].host, Leader(r))
  }

  ghost predicate JobsOwn(owner: map<Host, Owner>, jobs: seq<Host>) {
    (forall i :: 0 <= i < |jobs| ==> OwnedBy(owner, jobs[i], Job)) && Distinct(jobs)
  }

  ghost predicate WorkersOwn(owner: map<Host, Owner>, workers: seq<Worker>) {
    forall w :: 0 <= w < |workers| && Holds(workers[w]) ==> OwnedBy(owner, workers[w].host, ByWorker(w))
  }

  /** An entry of the in-flight table has exactly one owner, and every owner has its entry. */
  ghost predicate Owned(s: State) {
    && s.inFlight.Keys == s.owner.Keys
    && OwnersFit(s.owner, s.reqs, s.jobs, s.workers)
    && LeadersOwn(s.owner, s.reqs)
    && JobsOwn(s.owner, s.jobs)
    && WorkersOwn(s.owner, s.workers)
    && (s.workers == [] ==> s.jobs == [])
  }

  function WorkerSenders(workers: seq<Worker>, w: nat): seq<nat> {
    if w < |workers| && workers[w].Fanning? then workers[w].senders else []
  }

  function DrainerSenders(reqs: map<nat, Requester>, d: nat): seq<nat> {
    if d in reqs && reqs[d].Draining? then reqs[d].senders else []
  }

  predicate PlacedAt(place: map<nat, Place>, r: nat, p: Place) {
    r in place && place[r] == p
  }

  predicate PlaceFits(inFlight: map<Host, seq<nat>>, workers: seq<Worker>, reqs: map<nat, Requester>, r: nat,
                      p: Place) {
    match p
    case InEntry(h) => r in Senders(inFlight, h)
    case WithWorker(w) => r in WorkerSenders(workers, w)
    case WithDrainer(d) => r in DrainerSenders(reqs, d)
  }

  ghost predicate AllAt(place: map<nat, Place>, senders: seq<nat>, p: Place) {
    (forall i :: 0 <= i < |senders| ==> PlacedAt(place, senders[i], p)) && Distinct(senders)
  }

  ghost predicate PlacesFit(place: map<nat, Place>, inFlight: map<Host, seq<nat>>, workers: seq<Worker>,
                            reqs: map<nat, Requester>) {
    forall r :: r in place ==> PlaceFits(inFlight, workers, reqs, r, place[r])
  }

  ghost predicate EntriesPlaced(place: map<nat, Place>, inFlight: map<Host, seq<nat>>) {
    forall h :: AllAt(place, Senders(inFlight, h), InEntry(h))
  }

  ghost predicate WorkersPlaced(place: map<nat, Place>, workers: seq<Worker>) {
    forall w: nat :: AllAt(place, WorkerSenders(workers, w), WithWorker(w))
  }

  ghost predicate DrainersPlaced(place: map<nat, Place>, reqs: map<nat, Requester>) {
    forall d: nat :: AllAt(place, DrainerSenders(reqs, d), WithDrainer(d))
  }

  /** The host that the holder of a place works for. */
  predicate ServesHost(workers: seq<Worker>, reqs: map<nat, Requester>, p: Place, h: Host) {
    match p
    case InEntry(host) => host == h
    case WithWorker(w) => w < |workers| && workers[w].Fanning? && workers[w].host == h
    case WithDrainer(d) => d in reqs && reqs[d].Draining? && reqs[d].host == h
  }

  /** What a requester's own state says about its sender. */
  predicate SenderFits(place: map<nat, Place>, workers: seq<Worker>, reqs: map<nat, Requester>, r: nat)
    requires r in reqs
  {
    match reqs[r]
    case Leading(h) => PlacedAt(place, r, InEntry(h))
    case Failed(h) => PlacedAt(place, r, InEntry(h))
    case Waiting(h) => r in place && ServesHost(workers, reqs, place[r], h)
    case Draining(h, _) => r in place ==> place[r] == WithDrainer(r)
    case _ => r !in place
  }

  ghost predicate SendersFit(place: map<nat, Place>, workers: seq<Worker>, reqs: map<nat, Requester>) {
    && place.Keys <= reqs.Keys
    && (forall r :: r in reqs ==> SenderFits(place, workers, reqs, r))
  }

  /** Every sender is in exactly one place, once, and that place works for its host. */
  ghost predicate Placed(s: State) {
    && PlacesFit(s.place, s.inFlight, s.workers, s.reqs)
    && EntriesPlaced(s.place, s.inFlight)
    && WorkersPlaced(s.place, s.workers)
    && DrainersPlaced(s.place, s.reqs)
    && SendersFit(s.place, s.workers, s.reqs)
  }

  /** The answer is one that getaddrinfo gave for the host; without an asking it is empty, and that
      only for the empty name and when there are no workers. */
  predicate Honest(s: State, host: Host, addrs: Addrs) {
    (host, addrs) in s.produced || (addrs == [] && (host == "" || s.workers == []))
  }

  predicate CacheHonest(s: State) {
    forall h :: h in s.cache ==> s.cache[h].addrs != [] && (h, s.cache[h].addrs) in s.produced
  }

  predicate WorkersHonest(s: State) {
    forall w :: 0 <= w < |s.workers| && !s.workers[w].Idle? && !s.workers[w].Resolving? ==>
                  (s.workers[w].host, s.workers[w].addrs) in s.produced
  }

  predicate RepliesHonest(s: State) {
    forall r :: r in s.reqs && (s.reqs[r].Replied? || s.reqs[r].Done?) ==> Honest(s, s.reqs[r].host, s.reqs[r].addrs)
  }

  ghost predicate AllHonest(s: State) {
    && CacheHonest(s) && WorkersHonest(s) && RepliesHonest(s)
    && (forall w :: 0 <= w < |s.workers| && s.workers[w].Resolved? ==> s.workers[w].addrs != [])
    && (forall r :: r in s.reqs && (s.reqs[r].Failed? || s.reqs[r].Draining?) ==> s.workers == [])
  }

  ghost predicate Inv(s: State) {
    && Owned(s) && Placed(s)
    && AllHonest(s) && |s.cache| <= CACHE_MAX
  }

  // ---- Every step keeps the invariant: owners ----

  /** The roles of the requesters are as before. */
  ghost predicate SameLeaders(reqs: map<nat, Requester>, reqs': map<nat, Requester>) {
    && (forall r :: r in reqs' && Leads(reqs'[r]) ==> r in reqs && Leads(reqs[r]) && reqs[r].host == reqs'[r].host)
    && (forall r :: r in reqs && Leads(reqs[r]) ==> r in reqs' && Leads(reqs'[r]) && reqs[r].host == reqs'[r].host)
  }

  ghost predicate SameHolders(workers: seq<Worker>, workers': seq<Worker>) {
    && |workers| == |workers'|
    && (forall w :: 0 <= w < |workers| ==> Holds(workers'[w]) == Holds(workers[w]))
    && (forall w :: 0 <= w < |workers| && Holds(workers[w]) && Holds(workers'[w]) ==>
        workers'[w].host == workers[w].host)
  }

  lemma SameLeadersUpdate(reqs: map<nat, Requester>, r: nat, q: Requester)
    requires r in reqs && Leads(reqs[r]) ==> Leads(q) && q.host == reqs[r].host
    requires Leads(q) ==> r in reqs && Leads(reqs[r])
    ensures SameLeaders(reqs, reqs[r := q])
  {
  }

  lemma SameLeadersDeliver(reqs: map<nat, Requester>, reqs': map<nat, Requester>, to: nat, addrs: Addrs)
    requires SameLeaders(reqs, reqs')
    ensures SameLeaders(reqs, Deliver(reqs', to, addrs))
  {
  }

  lemma SameHoldersUpdate(workers: seq<Worker>, w: nat, v: Worker)
    requires w < |workers| && Holds(v) == Holds(workers[w]) && (Holds(v) ==> v.host == workers[w].host)
    ensures SameHolders(workers, workers[w := v])
  {
  }

  lemma SameHoldersRefl(workers: seq<Worker>)
    ensures SameHolders(workers, workers)
  {
  }

  lemma OwnersFrame(owner: map<Host, Owner>, reqs: map<nat, Requester>, reqs': map<nat, Requester>,
                    jobs: seq<Host>, workers: seq<Worker>, workers': seq<Worker>)
    requires OwnersFit(owner, reqs, jobs, workers) && LeadersOwn(owner, reqs) && WorkersOwn(owner, workers)
    requires SameLeaders(reqs, reqs') && SameHolders(workers, workers')
    ensures OwnersFit(owner, reqs', jobs, workers') && LeadersOwn(owner, reqs') && WorkersOwn(owner, workers')
  {
    forall h | h in owner ensures OwnerFits(reqs', jobs, workers', h, owner[h]) {
      assert OwnerFits(reqs, jobs, workers, h, owner[h]);
    }
  }

  lemma NewLeader(owner: map<Host, Owner>, reqs: map<nat, Requester>, jobs: seq<Host>, workers: seq<Worker>, r: nat,
                  h: Host)
    requires OwnersFit(owner, reqs, jobs, workers) && LeadersOwn(owner, reqs)
    requires JobsOwn(owner, jobs) && WorkersOwn(owner, workers)
    requires h !in owner && r in reqs && reqs[r] == Missed(h)
    ensures var (owner', reqs') := (owner[h := Leader(r)], reqs[r := Leading(h)]);
            && OwnersFit(owner', reqs', jobs, workers) && LeadersOwn(owner', reqs')
            && JobsOwn(owner', jobs) && WorkersOwn(owner', workers)
  {
    var (owner', reqs') := (owner[h := Leader(r)], reqs[r := Leading(h)]);
    forall g | g in owner' ensures OwnerFits(reqs', jobs, workers, g, owner'[g]) {
      assert g != h ==> OwnerFits(reqs, jobs, workers, g, owner[g]);
    }
    forall x | x in reqs' && Leads(reqs'[x]) ensures OwnedBy(owner', reqs'[x].host, Leader(x)) {
      assert x != r ==> OwnedBy(owner, reqs[x].host, Leader(x));
    }
    assert forall i :: 0 <= i < |jobs| ==> OwnedBy(owner, jobs[i], Job);
    assert forall w :: 0 <= w < |workers| && Holds(workers[w]) ==> OwnedBy(owner, workers[w].host, ByWorker(w));
  }

  lemma LeaderToJob(owner: map<Host, Owner>, reqs: map<nat, Requester>, jobs: seq<Host>, workers: seq<Worker>, r: nat,
                    h: Host)
    requires OwnersFit(owner, reqs, jobs, workers) && LeadersOwn(owner, reqs)
    requires JobsOwn(owner, jobs) && WorkersOwn(owner, workers)
    requires r in reqs && reqs[r] == Leading(h)
    ensures var (owner', reqs', jobs') := (owner[h := Job], reqs[r := Waiting(h)], jobs + [h]);
            && OwnersFit(owner', reqs', jobs', workers) && LeadersOwn(owner', reqs')
            && JobsOwn(owner', jobs') && WorkersOwn(owner', workers)
  {
    var (owner', reqs', jobs') := (owner[h := Job], reqs[r := Waiting(h)], jobs + [h]);
    assert OwnedBy(owner, h, Leader(r));
    forall g | g in owner' ensures OwnerFits(reqs', jobs', workers, g, owner'[g]) {
      assert g != h ==> OwnerFits(reqs, jobs, workers, g, owner[g]);
      assert jobs'[|jobs|] == h;
    }
    forall x | x in reqs' && Leads(reqs'[x]) ensures OwnedBy(owner', reqs'[x].host, Leader(x)) {
      assert OwnedBy(owner, reqs[x].host, Leader(x));
    }
    forall i | 0 <= i < |jobs| ensures OwnedBy(owner', jobs[i], Job) && jobs[i] != h {
      assert OwnedBy(owner, jobs[i], Job);
    }
    assert forall w :: 0 <= w < |workers| && Holds(workers[w]) ==> OwnedBy(owner, workers[w].host, ByWorker(w));
  }

  lemma JobToWorker(owner: map<Host, Owner>, reqs: map<nat, Requester>, jobs: seq<Host>, workers: seq<Worker>, w: nat)
    requires OwnersFit(owner, reqs, jobs, workers) && LeadersOwn(owner, reqs)
    requires JobsOwn(owner, jobs) && WorkersOwn(owner, workers)
    requires w < |workers| && workers[w].Idle? && jobs != []
    ensures var (owner', jobs', workers') := 
              (owner[jobs[0] := ByWorker(w)], jobs[1..], workers[w := Resolving(jobs[0])]);
            && OwnersFit(owner', reqs, jobs', workers') && LeadersOwn(owner', reqs)
            && JobsOwn(owner', jobs') && WorkersOwn(owner', workers')
  {
    var h := jobs[0];
    var (owner', jobs', workers') := (owner[h := ByWorker(w)], jobs[1..], workers[w := Resolving(h)]);
    assert OwnedBy(owner, jobs[0], Job);
    forall g | g in owner' ensures OwnerFits(reqs, jobs', workers', g, owner'[g]) {
      assert g != h ==> OwnerFits(reqs, jobs, workers, g, owner[g]);
      assert g in jobs ==> g == h || g in jobs';
    }
    assert forall x :: x in reqs && Leads(reqs[x]) ==> OwnedBy(owner, reqs[x].host, Leader(x));
    forall i | 0 <= i < |jobs'| ensures OwnedBy(owner', jobs'[i], Job) {
      assert OwnedBy(owner, jobs[i + 1], Job);
    }
    forall v | 0 <= v < |workers'| && Holds(workers'[v]) ensures OwnedBy(owner', workers'[v].host, ByWorker(v)) {
      assert v != w ==> OwnedBy(owner, workers[v].host, ByWorker(v));
    }
  }

  /** The owner of an entry gives it up: a failed leader or a worker about to fan out. */
  lemma OwnerGone(owner: map<Host, Owner>, reqs: map<nat, Requester>, reqs': map<nat, Requester>, jobs: seq<Host>,
                  workers: seq<Worker>, workers': seq<Worker>, h: Host)
    requires OwnersFit(owner, reqs, jobs, workers) && LeadersOwn(owner, reqs)
    requires JobsOwn(owner, jobs) && WorkersOwn(owner, workers)
    requires h in owner && !owner[h].Job? && |workers'| == |workers|
    requires forall r :: r in reqs' && (owner[h] != Leader(r)) ==> r in reqs && reqs'[r] == reqs[r]
    requires forall r :: r in reqs && (owner[h] != Leader(r)) ==> r in reqs' && reqs'[r] == reqs[r]
    requires forall r :: r in reqs' && owner[h] == Leader(r) ==> !Leads(reqs'[r])
    requires forall w: nat :: w < |workers| && owner[h] != ByWorker(w) ==> workers'[w] == workers[w]
    requires forall w: nat :: w < |workers| && owner[h] == ByWorker(w) ==> !Holds(workers'[w])
    ensures var owner' := owner - {h};
            && OwnersFit(owner', reqs', jobs, workers') && LeadersOwn(owner', reqs')
            && JobsOwn(owner', jobs) && WorkersOwn(owner', workers')
  {
    var owner' := owner - {h};
    assert OwnerFits(reqs, jobs, workers, h, owner[h]);
    forall g | g in owner' ensures OwnerFits(reqs', jobs, workers', g, owner'[g]) {
      assert OwnerFits(reqs, jobs, workers, g, owner[g]);
    }
    forall x | x in reqs' && Leads(reqs'[x]) ensures OwnedBy(owner', reqs'[x].host, Leader(x)) {
      assert OwnedBy(owner, reqs[x].host, Leader(x));
    }
    forall i | 0 <= i < |jobs| ensures OwnedBy(owner', jobs[i], Job) {
      assert OwnedBy(owner, jobs[i], Job);
    }
    forall v: nat | v < |workers'| && Holds(workers'[v]) ensures OwnedBy(owner', workers'[v].host, ByWorker(v)) {
      assert OwnedBy(owner, workers[v].host, ByWorker(v));
    }
  }

  /** Steps that change no owner. */
  lemma OwnedFrame(s: State, s': State)
    requires Owned(s) && s'.owner == s.owner && s'.jobs == s.jobs && s'.inFlight.Keys == s.inFlight.Keys
    requires SameLeaders(s.reqs, s'.reqs) && SameHolders(s.workers, s'.workers)
    ensures Owned(s')
  {
    hide OwnersFit, LeadersOwn, JobsOwn, WorkersOwn, SameLeaders;
    OwnersFrame(s.owner, s.reqs, s'.reqs, s.jobs, s.workers, s'.workers);
  }

  lemma LeaderHasEntry(s: State, r: nat)
    requires Owned(s) && r in s.reqs && Leads(s.reqs[r])
    ensures s.reqs[r].host in s.inFlight && OwnedBy(s.owner, s.reqs[r].host, Leader(r))
  {
  }

  lemma HolderHasEntry(s: State, w: nat)
    requires Owned(s) && w < |s.workers| && Holds(s.workers[w])
    ensures s.workers[w].host in s.inFlight && OwnedBy(s.owner, s.workers[w].host, ByWorker(w))
  {
  }

  lemma JobHasEntry(s: State)
    requires Owned(s) && s.jobs != []
    ensures s.jobs[0] in s.inFlight && OwnedBy(s.owner, s.jobs[0], Job)
  {
  }

  lemma OwnedAttach(s: State, r: nat, host: Host)
    requires Owned(s) && r in s.reqs && s.reqs[r] == Missed(host)
    ensures Owned(AttachStep(s, r, host))
  {
    hide OwnersFit, LeadersOwn, JobsOwn, WorkersOwn, SameLeaders, SameHolders;
    var s' := AttachStep(s, r, host);
    assert s'.inFlight.Keys == s.inFlight.Keys + {host};
    if host in s.inFlight {
      SameLeadersUpdate(s.reqs, r, Waiting(host));
      SameHoldersRefl(s.workers);
      OwnedFrame(s, s');
    } else {
      NewLeader(s.owner, s.reqs, s.jobs, s.workers, r, host);
    }
  }

  lemma OwnedEnqueue(s: State, r: nat, host: Host)
    requires Owned(s) && r in s.reqs && s.reqs[r] == Leading(host)
    ensures Owned(Enqueue(s, r, host))
  {
    hide OwnersFit, LeadersOwn, JobsOwn, WorkersOwn, SameLeaders, SameHolders;
    var s' := Enqueue(s, r, host);
    if s.workers == [] {
      SameLeadersUpdate(s.reqs, r, Failed(host));
      SameHoldersRefl(s.workers);
      OwnedFrame(s, s');
    } else {
      LeaderHasEntry(s, r);
      LeaderToJob(s.owner, s.reqs, s.jobs, s.workers, r, host);
      assert s'.owner.Keys == s.owner.Keys + {host};
    }
  }

  lemma OwnedDrain(s: State, r: nat, host: Host)
    requires Owned(s) && r in s.reqs && s.reqs[r] == Failed(host)
    ensures Owned(DrainEntry(s, r, host))
  {
    hide OwnersFit, LeadersOwn, JobsOwn, WorkersOwn, Senders, Move;
    var s' := DrainEntry(s, r, host);
    LeaderHasEntry(s, r);
    OwnerGone(s.owner, s.reqs, s'.reqs, s.jobs, s.workers, s.workers, host);
  }

  lemma OwnedTake(s: State, w: nat)
    requires Owned(s) && w < |s.workers| && s.workers[w].Idle? && s.jobs != []
    ensures Owned(TakeJob(s, w))
  {
    hide OwnersFit, LeadersOwn, JobsOwn, WorkersOwn;
    JobHasEntry(s);
    JobToWorker(s.owner, s.reqs, s.jobs, s.workers, w);
    assert TakeJob(s, w).owner.Keys == s.owner.Keys;
  }

  lemma OwnedFan(s: State, w: nat)
    requires Owned(s) && w < |s.workers| && (s.workers[w].Cached? || s.workers[w].Fanning?)
    ensures Owned(FanStep(s, w))
  {
    hide OwnersFit, LeadersOwn, JobsOwn, WorkersOwn, SameLeaders, SameHolders, Senders, Move, Deliver;
    var s' := FanStep(s, w);
    if s.workers[w].Cached? {
      HolderHasEntry(s, w);
      OwnerGone(s.owner, s.reqs, s'.reqs, s.jobs, s.workers, s'.workers, s.workers[w].host);
    } else {
      var senders := s.workers[w].senders;
      SameLeadersRefl(s.reqs);
      if senders != [] { SameLeadersDeliver(s.reqs, s.reqs, senders[0], s.workers[w].addrs); }
      SameHoldersUpdate(s.workers, w, s'.workers[w]);
      OwnedFrame(s, s');
    }
  }

  lemma SameLeadersRefl(reqs: map<nat, Requester>)
    ensures SameLeaders(reqs, reqs)
  {
  }

  lemma OwnedRequester(s: State, r: nat)
    requires Owned(s) && r in s.reqs && CanAdvance(s.reqs[r])
    ensures Owned(AdvanceRequester(s, r))
  {
    hide Owned, SameLeaders, SameHolders, AttachStep, Enqueue, DrainEntry, Deliver;
    var s' := AdvanceRequester(s, r);
    SameHoldersRefl(s.workers);
    match s.reqs[r]
    case Missed(host) => OwnedAttach(s, r, host);
    case Leading(host) => OwnedEnqueue(s, r, host);
    case Failed(host) => OwnedDrain(s, r, host);
    case Draining(host, senders) =>
      if senders != [] {
        SameLeadersUpdate(s.reqs, r, Draining(host, senders[1..]));
        SameLeadersDeliver(s.reqs, s.reqs[r := Draining(host, senders[1..])], senders[0], []);
      } else {
        SameLeadersUpdate(s.reqs, r, Done(host, []));
      }
      OwnedFrame(s, s');
    case Start(host) =>
      SameLeadersUpdate(s.reqs, r, s'.reqs[r]);
      OwnedFrame(s, s');
    case Replied(host, addrs) =>
      SameLeadersUpdate(s.reqs, r, Done(host, addrs));
      OwnedFrame(s, s');
  }

  lemma OwnedStep(s: State, a: Action)
    requires Owned(s) && Enabled(s, a)
    ensures Owned(Step(s, a))
  {
    hide Owned, SameLeaders, SameHolders, AdvanceRequester, TakeJob, FanStep;
    SameHoldersRefl(s.workers);
    SameLeadersRefl(s.reqs);
    match a
    case Tick => OwnedFrame(s, Step(s, a));
    case Request(r, host) =>
      SameLeadersUpdate(s.reqs, r, FirstState(host));
      OwnedFrame(s, Step(s, a));
    case Advance(r) => OwnedRequester(s, r);
    case Take(w) => OwnedTake(s, w);
    case Answer(w, addrs) =>
      SameHoldersUpdate(s.workers, w, Step(s, a).workers[w]);
      OwnedFrame(s, Step(s, a));
    case Put(w, victim) =>
      SameHoldersUpdate(s.workers, w, Step(s, a).workers[w]);
      OwnedFrame(s, Step(s, a));
    case Fan(w) => OwnedFan(s, w);
  }

  // ---- Every step keeps the invariant: places ----

  /** A requester that attaches. */
  lemma PlacesAttach(place: map<nat, Place>, inFlight: map<Host, seq<nat>>, workers: seq<Worker>,
                     reqs: map<nat, Requester>, r: nat, h: Host)
    requires PlacesFit(place, inFlight, workers, reqs) && EntriesPlaced(place, inFlight)
    requires WorkersPlaced(place, workers) && DrainersPlaced(place, reqs) && r !in place
    ensures var (place', inFlight') := (place[r := InEntry(h)], Attach(inFlight, h, r));
            && PlacesFit(place', inFlight', workers, reqs) && EntriesPlaced(place', inFlight')
            && WorkersPlaced(place', workers) && DrainersPlaced(place', reqs)
  {
    hide WorkerSenders, DrainerSenders, AllAt;
    var (place', inFlight') := (place[r := InEntry(h)], Attach(inFlight, h, r));
    forall x | x in place' ensures PlaceFits(inFlight', workers, reqs, x, place'[x]) {
      assert x != r ==> PlaceFits(inFlight, workers, reqs, x, place[x]);
      if x == r { assert Senders(inFlight', h)[|Senders(inFlight, h)|] == r; }
    }
    forall g ensures AllAt(place', Senders(inFlight', g), InEntry(g)) {
      assert AllAt(place, Senders(inFlight, g), InEntry(g));
      AllAtInsert(place, Senders(inFlight, g), InEntry(g), r, InEntry(h));
      if g == h {
        AllAtAppend(place', Senders(inFlight, h), InEntry(h), r);
        assert Senders(inFlight', h) == Senders(inFlight, h) + [r];
      }
    }
    forall w: nat ensures AllAt(place', WorkerSenders(workers, w), WithWorker(w)) {
      AllAtInsert(place, WorkerSenders(workers, w), WithWorker(w), r, InEntry(h));
    }
    forall d: nat ensures AllAt(place', DrainerSenders(reqs, d), WithDrainer(d)) {
      AllAtInsert(place, DrainerSenders(reqs, d), WithDrainer(d), r, InEntry(h));
    }
  }

  lemma AllAtInsert(place: map<nat, Place>, senders: seq<nat>, p: Place, r: nat, q: Place)
    requires AllAt(place, senders, p) && r !in place
    ensures AllAt(place[r := q], senders, p) && r !in senders
  {
    assert forall i :: 0 <= i < |senders| ==> PlacedAt(place, senders[i], p);
    forall i | 0 <= i < |senders| ensures PlacedAt(place[r := q], senders[i], p) {
      assert PlacedAt(place, senders[i], p);
    }
  }

  lemma AllAtAppend(place: map<nat, Place>, senders: seq<nat>, p: Place, r: nat)
    requires AllAt(place, senders, p) && PlacedAt(place, r, p) && r !in senders
    ensures AllAt(place, senders + [r], p)
  {
  }

  /** An entry's senders go to whoever removed it. */
  lemma AllAtMoved(place: map<nat, Place>, senders: seq<nat>, p: Place, to: Place)
    requires AllAt(place, senders, p)
    ensures AllAt(Move(place, senders, to), senders, to)
  {
  }

  lemma AllAtOthers(place: map<nat, Place>, moved: seq<nat>, from: Place, to: Place, senders: seq<nat>, p: Place)
    requires AllAt(place, moved, from) && AllAt(place, senders, p) && p != from
    ensures AllAt(Move(place, moved, to), senders, p)
  {
    forall i | 0 <= i < |senders| ensures PlacedAt(Move(place, moved, to), senders[i], p) {
      assert PlacedAt(place, senders[i], p);
    }
  }

  lemma PlacesMoveFit(place: map<nat, Place>, inFlight: map<Host, seq<nat>>,
                      workers: seq<Worker>, workers': seq<Worker>,
                      reqs: map<nat, Requester>, reqs': map<nat, Requester>, h: Host, to: Place)
    requires PlacesFit(place, inFlight, workers, reqs) && !to.InEntry?
    requires forall w: nat :: WorkerSenders(workers', w) ==
               if to == WithWorker(w) then Senders(inFlight, h) else WorkerSenders(workers, w)
    requires forall d: nat :: DrainerSenders(reqs', d) ==
               if to == WithDrainer(d) then Senders(inFlight, h) else DrainerSenders(reqs, d)
    requires to.WithWorker? ==> WorkerSenders(workers, to.w) == []
    requires to.WithDrainer? ==> DrainerSenders(reqs, to.r) == []
    ensures PlacesFit(Move(place, Senders(inFlight, h), to), inFlight - {h}, workers', reqs')
  {
    hide WorkerSenders, DrainerSenders;
    var moved := Senders(inFlight, h);
    var place' := Move(place, moved, to);
    forall x | x in place' ensures PlaceFits(inFlight - {h}, workers', reqs', x, place'[x]) {
      if x !in moved {
        assert PlaceFits(inFlight, workers, reqs, x, place[x]);
      }
    }
  }

  lemma PlacesMove(place: map<nat, Place>, inFlight: map<Host, seq<nat>>, workers: seq<Worker>, workers': seq<Worker>,
                   reqs: map<nat, Requester>, reqs': map<nat, Requester>, h: Host, to: Place)
    requires PlacesFit(place, inFlight, workers, reqs) && EntriesPlaced(place, inFlight)
    requires WorkersPlaced(place, workers) && DrainersPlaced(place, reqs)
    requires !to.InEntry?
    requires forall w: nat :: WorkerSenders(workers', w) ==
               if to == WithWorker(w) then Senders(inFlight, h) else WorkerSenders(workers, w)
    requires forall d: nat :: DrainerSenders(reqs', d) ==
               if to == WithDrainer(d) then Senders(inFlight, h) else DrainerSenders(reqs, d)
    requires to.WithWorker? ==> WorkerSenders(workers, to.w) == []
    requires to.WithDrainer? ==> DrainerSenders(reqs, to.r) == []
    ensures var (place', inFlight') := (Move(place, Senders(inFlight, h), to), inFlight - {h});
            && PlacesFit(place', inFlight', workers', reqs') && EntriesPlaced(place', inFlight')
            && WorkersPlaced(place', workers') && DrainersPlaced(place', reqs')
  {
    hide WorkerSenders, DrainerSenders, AllAt;
    var moved := Senders(inFlight, h);
    var (place', inFlight') := (Move(place, moved, to), inFlight - {h});
    assert AllAt(place, moved, InEntry(h));
    AllAtMoved(place, moved, InEntry(h), to);
    PlacesMoveFit(place, inFlight, workers, workers', reqs, reqs', h, to);
    forall g ensures AllAt(place', Senders(inFlight', g), InEntry(g)) {
      if g == h || g !in inFlight { NobodyAt(place', InEntry(g)); }
      else { AllAtOthers(place, moved, InEntry(h), to, Senders(inFlight, g), InEntry(g)); }
    }
    forall w: nat ensures AllAt(place', WorkerSenders(workers', w), WithWorker(w)) {
      if to != WithWorker(w) { AllAtOthers(place, moved, InEntry(h), to, WorkerSenders(workers, w), WithWorker(w)); }
    }
    forall d: nat ensures AllAt(place', DrainerSenders(reqs', d), WithDrainer(d)) {
      if to != WithDrainer(d) { AllAtOthers(place, moved, InEntry(h), to, DrainerSenders(reqs, d), WithDrainer(d)); }
    }
  }

  lemma NobodyAt(place: map<nat, Place>, p: Place)
    ensures AllAt(place, [], p)
  {
  }

  /** One reply goes out: the first sender of a worker or of a drainer is used up. */
  lemma PlacesSend(place: map<nat, Place>, inFlight: map<Host, seq<nat>>, workers: seq<Worker>, workers': seq<Worker>,
                   reqs: map<nat, Requester>, reqs': map<nat, Requester>, senders: seq<nat>, from: Place)
    requires PlacesFit(place, inFlight, workers, reqs) && EntriesPlaced(place, inFlight)
    requires WorkersPlaced(place, workers) && DrainersPlaced(place, reqs)
    requires senders != [] && !from.InEntry?
    requires from.WithWorker? ==> senders == WorkerSenders(workers, from.w)
    requires from.WithDrainer? ==> senders == DrainerSenders(reqs, from.r)
    requires forall w: nat :: WorkerSenders(workers', w) ==
               if from == WithWorker(w) then senders[1..] else WorkerSenders(workers, w)
    requires forall d: nat :: DrainerSenders(reqs', d) ==
               if from == WithDrainer(d) then senders[1..] else DrainerSenders(reqs, d)
    ensures PlacedAt(place, senders[0], from)
    ensures var place' := place - {senders[0]};
            && PlacesFit(place', inFlight, workers', reqs') && EntriesPlaced(place', inFlight)
            && WorkersPlaced(place', workers') && DrainersPlaced(place', reqs')
  {
    hide WorkerSenders, DrainerSenders, Senders, AllAt;
    var x0 := senders[0];
    var place' := place - {x0};
    assert AllAt(place, senders, from);
    AllAtHead(place, senders, from);
    forall x | x in place' ensures PlaceFits(inFlight, workers', reqs', x, place'[x]) {
      assert PlaceFits(inFlight, workers, reqs, x, place[x]);
      assert x in senders ==> x in senders[1..];
    }
    forall g ensures AllAt(place', Senders(inFlight, g), InEntry(g)) {
      AllAtWithout(place, Senders(inFlight, g), InEntry(g), x0);
    }
    forall w: nat ensures AllAt(place', WorkerSenders(workers', w), WithWorker(w)) {
      if from != WithWorker(w) { AllAtWithout(place, WorkerSenders(workers, w), WithWorker(w), x0); }
    }
    forall d: nat ensures AllAt(place', DrainerSenders(reqs', d), WithDrainer(d)) {
      if from != WithDrainer(d) { AllAtWithout(place, DrainerSenders(reqs, d), WithDrainer(d), x0); }
    }
  }

  lemma AllAtHead(place: map<nat, Place>, senders: seq<nat>, p: Place)
    requires AllAt(place, senders, p) && senders != []
    ensures PlacedAt(place, senders[0], p) && AllAt(place - {senders[0]}, senders[1..], p)
  {
    forall i | 0 <= i < |senders| - 1 ensures PlacedAt(place - {senders[0]}, senders[1..][i], p) {
      assert PlacedAt(place, senders[i + 1], p);
    }
  }

  lemma AllAtWithout(place: map<nat, Place>, senders: seq<nat>, p: Place, r: nat)
    requires AllAt(place, senders, p) && r in place && place[r] != p
    ensures AllAt(place - {r}, senders, p)
  {
    forall i | 0 <= i < |senders| ensures PlacedAt(place - {r}, senders[i], p) {
      assert PlacedAt(place, senders[i], p);
    }
  }

  lemma PlacesFrame(place: map<nat, Place>, inFlight: map<Host, seq<nat>>, workers: seq<Worker>, workers': seq<Worker>,
                    reqs: map<nat, Requester>, reqs': map<nat, Requester>)
    requires PlacesFit(place, inFlight, workers, reqs)
    requires WorkersPlaced(place, workers) && DrainersPlaced(place, reqs)
    requires forall w: nat :: WorkerSenders(workers', w) == WorkerSenders(workers, w)
    requires forall d: nat :: DrainerSenders(reqs', d) == DrainerSenders(reqs, d)
    ensures PlacesFit(place, inFlight, workers', reqs')
    ensures WorkersPlaced(place, workers') && DrainersPlaced(place, reqs')
  {
    hide WorkerSenders, DrainerSenders, Senders, AllAt;
    forall x | x in place ensures PlaceFits(inFlight, workers', reqs', x, place[x]) {
      assert PlaceFits(inFlight, workers, reqs, x, place[x]);
    }
  }

  // ---- Every step keeps the invariant: what requesters know ----

  /** Whoever serves a host in some place still does. */
  ghost predicate KeepsHosts(place: map<nat, Place>, workers: seq<Worker>, workers': seq<Worker>,
                             reqs: map<nat, Requester>, reqs': map<nat, Requester>) {
    forall x, h {:trigger ServesHost(workers, reqs, place[x], h)} ::
      x in place && ServesHost(workers, reqs, place[x], h) ==> ServesHost(workers', reqs', place[x], h)
  }

  /** A requester whose state and sender stay as they are. */
  predicate Untouched(place: map<nat, Place>, place': map<nat, Place>, reqs: map<nat, Requester>,
                      reqs': map<nat, Requester>, x: nat) {
    && x in reqs && x in reqs' && reqs'[x] == reqs[x]
    && (x in place <==> x in place') && (x in place ==> place'[x] == place[x])
  }

  lemma FitsFrame(place: map<nat, Place>, place': map<nat, Place>, workers: seq<Worker>, workers': seq<Worker>,
                  reqs: map<nat, Requester>, reqs': map<nat, Requester>)
    requires SendersFit(place, workers, reqs)
    requires place'.Keys <= reqs'.Keys
    requires KeepsHosts(place', workers, workers', reqs, reqs')
    requires forall x :: x in reqs' ==>
               Untouched(place, place', reqs, reqs', x) || SenderFits(place', workers', reqs', x)
    ensures SendersFit(place', workers', reqs')
  {
    forall x | x in reqs' ensures SenderFits(place', workers', reqs', x) {
      if Untouched(place, place', reqs, reqs', x) {
        assert SenderFits(place, workers, reqs, x);
      }
    }
  }

  /** One requester that neither was nor becomes a drainer changes. */
  lemma FitsUpdate(place: map<nat, Place>, place': map<nat, Place>, workers: seq<Worker>, reqs: map<nat, Requester>,
                   r: nat, q: Requester, p: Place)
    requires SendersFit(place, workers, reqs)
    requires !q.Draining? && (r in reqs ==> !reqs[r].Draining?)
    requires place' == place || place' == place[r := p]
    requires SenderFits(place', workers, reqs[r := q], r)
    ensures SendersFit(place', workers, reqs[r := q])
  {
    hide SenderFits;
    FitsFrame(place, place', workers, workers, reqs, reqs[r := q]);
  }

  /** Workers that neither were nor become busy sending change. */
  lemma FitsWorker(place: map<nat, Place>, workers: seq<Worker>, reqs: map<nat, Requester>, w: nat, v: Worker)
    requires SendersFit(place, workers, reqs)
    requires w < |workers| && !v.Fanning? && !workers[w].Fanning?
    ensures SendersFit(place, workers[w := v], reqs)
  {
    hide SenderFits;
    FitsFrame(place, place, workers, workers[w := v], reqs, reqs);
  }

  lemma SameDrainers(reqs: map<nat, Requester>, r: nat, q: Requester)
    requires !q.Draining? && (r in reqs ==> !reqs[r].Draining?)
    ensures forall d: nat :: DrainerSenders(reqs[r := q], d) == DrainerSenders(reqs, d)
  {
  }

  lemma SameFanners(workers: seq<Worker>, w: nat, v: Worker)
    requires w < |workers| && !v.Fanning? && !workers[w].Fanning?
    ensures forall x: nat :: WorkerSenders(workers[w := v], x) == WorkerSenders(workers, x)
  {
  }

  lemma PlacedRequest(s: State, r: nat, host: Host)
    requires Placed(s) && r !in s.reqs
    ensures Placed(s.(reqs := s.reqs[r := FirstState(host)]))
  {
    hide PlacesFit, EntriesPlaced, WorkersPlaced, DrainersPlaced, WorkerSenders, DrainerSenders;
    var q := FirstState(host);
    assert SendersFit(s.place, s.workers, s.reqs) && r !in s.place;
    SameDrainers(s.reqs, r, q);
    FitsUpdate(s.place, s.place, s.workers, s.reqs, r, q, InEntry(""));
    PlacesFrame(s.place, s.inFlight, s.workers, s.workers, s.reqs, s.reqs[r := q]);
  }

  /** A requester without a sender takes a step without one. */
  lemma PlacedUpdate(s: State, s': State, r: nat, q: Requester)
    requires Placed(s) && r in s.reqs
    requires s'.place == s.place && s'.inFlight == s.inFlight && s'.workers == s.workers && s'.reqs == s.reqs[r := q]
    requires !q.Draining? && !s.reqs[r].Draining?
    requires SenderFits(s.place, s.workers, s'.reqs, r)
    ensures Placed(s')
  {
    hide PlacesFit, EntriesPlaced, WorkersPlaced, DrainersPlaced, WorkerSenders, DrainerSenders, SendersFit, SenderFits;
    SameDrainers(s.reqs, r, q);
    FitsUpdate(s.place, s.place, s.workers, s.reqs, r, q, InEntry(""));
    PlacesFrame(s.place, s.inFlight, s.workers, s.workers, s.reqs, s'.reqs);
  }

  lemma PlacedWorker(s: State, s': State, w: nat, v: Worker)
    requires Placed(s) && w < |s.workers| && !v.Fanning? && !s.workers[w].Fanning?
    requires s'.place == s.place && s'.inFlight == s.inFlight && s'.reqs == s.reqs && s'.workers == s.workers[w := v]
    ensures Placed(s')
  {
    hide PlacesFit, EntriesPlaced, WorkersPlaced, DrainersPlaced, WorkerSenders, DrainerSenders, SendersFit;
    SameFanners(s.workers, w, v);
    FitsWorker(s.place, s.workers, s.reqs, w, v);
    PlacesFrame(s.place, s.inFlight, s.workers, s'.workers, s.reqs, s.reqs);
  }

  lemma PlacedAttach(s: State, r: nat, host: Host)
    requires Placed(s) && r in s.reqs && s.reqs[r] == Missed(host)
    ensures Placed(AttachStep(s, r, host))
  {
    hide PlacesFit, EntriesPlaced, WorkersPlaced, DrainersPlaced, WorkerSenders, DrainerSenders, Attach;
    var s' := AttachStep(s, r, host);
    var q := s'.reqs[r];
    assert SenderFits(s.place, s.workers, s.reqs, r);
    SameDrainers(s.reqs, r, q);
    FitsUpdate(s.place, s'.place, s.workers, s.reqs, r, q, InEntry(host));
    PlacesAttach(s.place, s.inFlight, s.workers, s.reqs, r, host);
    PlacesFrame(s'.place, s'.inFlight, s.workers, s.workers, s.reqs, s'.reqs);
  }

  lemma OnlyLeader(s: State, r: nat, x: nat)
    requires Owned(s) && r in s.reqs && Leads(s.reqs[r]) && x in s.reqs && Leads(s.reqs[x])
        && s.reqs[x].host == s.reqs[r].host
    ensures x == r
  {
    LeaderHasEntry(s, r);
    LeaderHasEntry(s, x);
  }

  lemma NoLeader(s: State, w: nat, x: nat)
    requires Owned(s) && w < |s.workers| && Holds(s.workers[w]) && x in s.reqs && Leads(s.reqs[x])
    ensures s.reqs[x].host != s.workers[w].host
  {
    HolderHasEntry(s, w);
    LeaderHasEntry(s, x);
  }

  /** The requesters whose senders go with an entry, if they do not lead it: they wait for its host. */
  lemma FitsMoved(place: map<nat, Place>, workers: seq<Worker>, workers': seq<Worker>, reqs: map<nat, Requester>,
                  reqs': map<nat, Requester>, moved: seq<nat>, h: Host, to: Place, x: nat)
    requires SendersFit(place, workers, reqs) && AllAt(place, moved, InEntry(h))
    requires x in moved && x in reqs && x in reqs' && reqs'[x] == reqs[x]
    requires !(Leads(reqs[x]) && reqs[x].host == h) && ServesHost(workers', reqs', to, h)
    ensures SenderFits(Move(place, moved, to), workers', reqs', x)
  {
    var i :| 0 <= i < |moved| && moved[i] == x;
    assert PlacedAt(place, moved[i], InEntry(h));
    assert SenderFits(place, workers, reqs, x);
  }

  lemma InReqs(place: map<nat, Place>, workers: seq<Worker>, reqs: map<nat, Requester>, senders: seq<nat>, p: Place)
    requires SendersFit(place, workers, reqs) && AllAt(place, senders, p)
    ensures forall x :: x in senders ==> PlacedAt(place, x, p) && x in reqs
  {
    forall x | x in senders ensures PlacedAt(place, x, p) {
      var i :| 0 <= i < |senders| && senders[i] == x;
      assert PlacedAt(place, senders[i], p);
    }
  }

  lemma PlacedDrain(s: State, r: nat, host: Host)
    requires Placed(s) && Owned(s) && r in s.reqs && s.reqs[r] == Failed(host)
    ensures Placed(DrainEntry(s, r, host))
  {
    hide PlacesFit, WorkersPlaced, DrainersPlaced, WorkerSenders, Owned, SenderFits, AllAt, Senders, SendersFit;
    var s' := DrainEntry(s, r, host);
    var moved := Senders(s.inFlight, host);
    assert AllAt(s.place, moved, InEntry(host));
    InReqs(s.place, s.workers, s.reqs, moved, InEntry(host));
    PlacesMove(s.place, s.inFlight, s.workers, s.workers, s.reqs, s'.reqs, host, WithDrainer(r));
    SelfFits(s, r, host);
    assert s.place.Keys <= s.reqs.Keys by { KeysIn(s); }
    forall x | x in s'.reqs
      ensures Untouched(s.place, s'.place, s.reqs, s'.reqs, x) || SenderFits(s'.place, s.workers, s'.reqs, x)
    {
      if x in moved && x != r {
        assert Leads(s.reqs[x]) && s.reqs[x].host == host ==> x == r by {
          if Leads(s.reqs[x]) && s.reqs[x].host == host { OnlyLeader(s, r, x); }
        }
        FitsMoved(s.place, s.workers, s.workers, s.reqs, s'.reqs, moved, host, WithDrainer(r), x);
      }
    }
    FitsFrame(s.place, s'.place, s.workers, s.workers, s.reqs, s'.reqs);
  }

  lemma KeysIn(s: State)
    requires Placed(s)
    ensures s.place.Keys <= s.reqs.Keys
  {
  }

  /** A failed leader's own sender is in the entry that it removes. */
  lemma SelfFits(s: State, r: nat, host: Host)
    requires Placed(s) && r in s.reqs && s.reqs[r] == Failed(host)
    ensures SenderFits(DrainEntry(s, r, host).place, s.workers, DrainEntry(s, r, host).reqs, r)
  {
    assert SenderFits(s.place, s.workers, s.reqs, r);
    assert PlaceFits(s.inFlight, s.workers, s.reqs, r, s.place[r]);
  }

  lemma PlacedFanRemove(s: State, w: nat)
    requires Placed(s) && Owned(s) && w < |s.workers| && s.workers[w].Cached?
    ensures Placed(FanStep(s, w))
  {
    hide PlacesFit, WorkersPlaced, DrainersPlaced, DrainerSenders, Owned, SenderFits, AllAt, Senders, SendersFit;
    var s' := FanStep(s, w);
    var host := s.workers[w].host;
    var moved := Senders(s.inFlight, host);
    assert AllAt(s.place, moved, InEntry(host));
    InReqs(s.place, s.workers, s.reqs, moved, InEntry(host));
    PlacesMove(s.place, s.inFlight, s.workers, s'.workers, s.reqs, s.reqs, host, WithWorker(w));
    assert s.place.Keys <= s.reqs.Keys by { KeysIn(s); }
    forall x | x in s'.reqs
      ensures Untouched(s.place, s'.place, s.reqs, s'.reqs, x) || SenderFits(s'.place, s'.workers, s'.reqs, x)
    {
      if x in moved {
        assert !(Leads(s.reqs[x]) && s.reqs[x].host == host) by {
          if Leads(s.reqs[x]) { NoLeader(s, w, x); }
        }
        FitsMoved(s.place, s.workers, s'.workers, s.reqs, s.reqs, moved, host, WithWorker(w), x);
      }
    }
    FitsFrame(s.place, s'.place, s.workers, s'.workers, s.reqs, s'.reqs);
  }

  /** A sender held by a worker or by another requester belongs to a requester in recv. */
  lemma ReceiverWaits(place: map<nat, Place>, workers: seq<Worker>, reqs: map<nat, Requester>, x: nat, from: Place)
    requires SendersFit(place, workers, reqs) && PlacedAt(place, x, from) && !from.InEntry?
    ensures x in reqs
    ensures reqs[x].Waiting? || (reqs[x].Draining? && from == WithDrainer(x))
    ensures reqs[x].Waiting? ==> ServesHost(workers, reqs, from, reqs[x].host)
  {
    assert SenderFits(place, workers, reqs, x);
  }

  lemma DeliverKeepsDrainers(reqs: map<nat, Requester>, to: nat, addrs: Addrs)
    ensures forall d: nat :: DrainerSenders(Deliver(reqs, to, addrs), d) == DrainerSenders(reqs, d)
  {
  }

  /** A reply leaves and reaches its requester, if that one is in recv. */
  lemma FitsSend(place: map<nat, Place>, workers: seq<Worker>, workers': seq<Worker>, reqs: map<nat, Requester>,
                 middle: map<nat, Requester>, to: nat, addrs: Addrs, from: Place)
    requires SendersFit(place, workers, reqs) && PlacedAt(place, to, from) && !from.InEntry?
    requires middle.Keys == reqs.Keys
    requires forall x :: x in reqs && middle[x] != reqs[x] ==>
        reqs[x].Draining? && middle[x].Draining? && middle[x].host == reqs[x].host
    requires forall x, h {:trigger ServesHost(workers, reqs, place[x], h)} ::
               x in place && ServesHost(workers, reqs, place[x], h) ==> ServesHost(workers', middle, place[x], h)
    ensures SendersFit(place - {to}, workers', Deliver(middle, to, addrs))
  {
    var (place', reqs') := (place - {to}, Deliver(middle, to, addrs));
    ReceiverWaits(place, workers, reqs, to, from);
    forall x | x in reqs' ensures SenderFits(place', workers', reqs', x) {
      assert SenderFits(place, workers, reqs, x);
    }
  }

  lemma PlacedFanSend(s: State, w: nat)
    requires Placed(s) && w < |s.workers| && s.workers[w].Fanning? && s.workers[w].senders != []
    ensures Placed(FanStep(s, w))
  {
    hide PlacesFit, EntriesPlaced, WorkersPlaced, DrainersPlaced, DrainerSenders, SendersFit, Deliver;
    var s' := FanStep(s, w);
    var senders := s.workers[w].senders;
    DeliverKeepsDrainers(s.reqs, senders[0], s.workers[w].addrs);
    PlacesSend(s.place, s.inFlight, s.workers, s'.workers, s.reqs, s'.reqs, senders, WithWorker(w));
    FitsSend(s.place, s.workers, s'.workers, s.reqs, s.reqs, senders[0], s.workers[w].addrs, WithWorker(w));
  }

  lemma PlacedDrainSend(s: State, r: nat, host: Host, senders: seq<nat>)
    requires Placed(s) && r in s.reqs && s.reqs[r] == Draining(host, senders) && senders != []
    ensures Placed(DrainNext(s, r, host, senders))
  {
    hide PlacesFit, EntriesPlaced, WorkersPlaced, DrainersPlaced, WorkerSenders, SendersFit, Deliver;
    var s' := DrainNext(s, r, host, senders);
    var middle := s.reqs[r := Draining(host, senders[1..])];
    DeliverKeepsDrainers(middle, senders[0], []);
    PlacesSend(s.place, s.inFlight, s.workers, s.workers, s.reqs, s'.reqs, senders, WithDrainer(r));
    FitsSend(s.place, s.workers, s.workers, s.reqs, middle, senders[0], [], WithDrainer(r));
  }

  /** Who finished sending holds no sender. */
  lemma NobodyLeft(s: State, p: Place)
    requires Placed(s)
    requires p.WithWorker? ==> WorkerSenders(s.workers, p.w) == []
    requires p.WithDrainer? ==> DrainerSenders(s.reqs, p.r) == []
    requires !p.InEntry?
    ensures forall x :: x in s.place ==> s.place[x] != p
  {
    hide Senders;
    forall x | x in s.place ensures s.place[x] != p {
      assert PlaceFits(s.inFlight, s.workers, s.reqs, x, s.place[x]);
    }
  }

  lemma PlacedFanDone(s: State, w: nat)
    requires Placed(s) && w < |s.workers| && s.workers[w].Fanning? && s.workers[w].senders == []
    ensures Placed(FanStep(s, w))
  {
    NobodyLeft(s, WithWorker(w));
    hide PlacesFit, EntriesPlaced, WorkersPlaced, DrainersPlaced, DrainerSenders, SenderFits;
    var s' := FanStep(s, w);
    PlacesFrame(s.place, s.inFlight, s.workers, s'.workers, s.reqs, s.reqs);
    FitsFrame(s.place, s.place, s.workers, s'.workers, s.reqs, s.reqs);
  }

  lemma PlacedDrainDone(s: State, r: nat, host: Host)
    requires Placed(s) && r in s.reqs && s.reqs[r] == Draining(host, [])
    ensures Placed(DrainNext(s, r, host, []))
  {
    NobodyLeft(s, WithDrainer(r));
    hide PlacesFit, EntriesPlaced, WorkersPlaced, DrainersPlaced, WorkerSenders;
    var s' := DrainNext(s, r, host, []);
    assert SenderFits(s.place, s.workers, s.reqs, r);
    PlacesFrame(s.place, s.inFlight, s.workers, s.workers, s.reqs, s'.reqs);
    FitsFrame(s.place, s.place, s.workers, s.workers, s.reqs, s'.reqs);
  }

  lemma SenderKnown(s: State, r: nat)
    requires Placed(s) && r in s.reqs
    ensures SenderFits(s.place, s.workers, s.reqs, r)
  {
  }

  lemma PlacedRequester(s: State, r: nat)
    requires Placed(s) && Owned(s) && r in s.reqs && CanAdvance(s.reqs[r])
    ensures Placed(AdvanceRequester(s, r))
  {
    hide Placed, Owned, AttachStep, DrainEntry, DrainNext;
    var s' := AdvanceRequester(s, r);
    SenderKnown(s, r);
    match s.reqs[r]
    case Start(host) => PlacedUpdate(s, s', r, s'.reqs[r]);
    case Missed(host) => PlacedAttach(s, r, host);
    case Leading(host) => PlacedUpdate(s, s', r, s'.reqs[r]);
    case Failed(host) => PlacedDrain(s, r, host);
    case Draining(host, senders) =>
      if senders == [] { PlacedDrainDone(s, r, host); } else { PlacedDrainSend(s, r, host, senders); }
    case Replied(host, addrs) => PlacedUpdate(s, s', r, s'.reqs[r]);
  }

  lemma PlacedStep(s: State, a: Action)
    requires Placed(s) && Owned(s) && Enabled(s, a)
    ensures Placed(Step(s, a))
  {
    hide Owned, AdvanceRequester, FanStep, PlacesFit, EntriesPlaced, WorkersPlaced, DrainersPlaced, SendersFit;
    var s' := Step(s, a);
    match a
    case Tick =>
    case Request(r, host) => PlacedRequest(s, r, host);
    case Advance(r) => PlacedRequester(s, r);
    case Take(w) => PlacedWorker(s, s', w, s'.workers[w]);
    case Answer(w, addrs) => PlacedWorker(s, s', w, s'.workers[w]);
    case Put(w, victim) => PlacedWorker(s, s', w, s'.workers[w]);
    case Fan(w) =>
      if s.workers[w].Cached? { PlacedFanRemove(s, w); }
      else if s.workers[w].senders == [] { PlacedFanDone(s, w); }
      else { PlacedFanSend(s, w); }
  }

  // ---- Every step keeps the invariant ----

  lemma HonestRequester(s: State, r: nat)
    requires AllHonest(s) && r in s.reqs && CanAdvance(s.reqs[r])
    ensures AllHonest(AdvanceRequester(s, r))
  {
    hide Attach, Move, Senders, DrainNext, LookUp;
    match s.reqs[r]
    case Draining(host, senders) => HonestDrain(s, r, host, senders);
    case Start(host) => HonestLookUp(s, r, host);
    case _ =>
  }

  lemma HonestLookUp(s: State, r: nat, host: Host)
    requires AllHonest(s) && r in s.reqs && s.reqs[r] == Start(host)
    ensures AllHonest(LookUp(s, r, host))
  {
    assert host in s.cache ==> Honest(s, host, s.cache[host].addrs);
  }

  /** An empty reply is honest when there are no workers. */
  lemma HonestDrain(s: State, r: nat, host: Host, senders: seq<nat>)
    requires AllHonest(s) && r in s.reqs && s.reqs[r] == Draining(host, senders)
    ensures AllHonest(DrainNext(s, r, host, senders))
  {
  }

  lemma HonestAnswer(s: State, w: nat, addrs: Addrs)
    requires AllHonest(s) && w < |s.workers| && s.workers[w].Resolving?
    ensures AllHonest(AnswerStep(s, w, addrs))
  {
    var s' := AnswerStep(s, w, addrs);
    forall h, x | Honest(s, h, x) ensures Honest(s', h, x) {}
  }

  lemma HonestPut(s: State, w: nat, victim: Host)
    requires AllHonest(s) && w < |s.workers| && s.workers[w].Resolved?
    ensures AllHonest(PutStep(s, w, victim))
  {
    assert (s.workers[w].host, s.workers[w].addrs) in s.produced;
  }

  /** The requester that a worker replies to asked for the worker's host. */
  lemma FanReachesOwn(s: State, w: nat)
    requires Placed(s) && w < |s.workers| && s.workers[w].Fanning? && s.workers[w].senders != []
    ensures var to := s.workers[w].senders[0];
            to in s.reqs && s.reqs[to].Waiting? && s.reqs[to].host == s.workers[w].host
  {
    hide PlacesFit, EntriesPlaced, DrainersPlaced, SendersFit;
    assert AllAt(s.place, WorkerSenders(s.workers, w), WithWorker(w));
    assert PlacedAt(s.place, s.workers[w].senders[0], WithWorker(w));
    ReceiverWaits(s.place, s.workers, s.reqs, s.workers[w].senders[0], WithWorker(w));
  }

  lemma HonestFan(s: State, w: nat)
    requires AllHonest(s) && Placed(s) && w < |s.workers| && (s.workers[w].Cached? || s.workers[w].Fanning?)
    ensures AllHonest(FanStep(s, w))
  {
    hide Move, Senders, Placed;
    assert (s.workers[w].host, s.workers[w].addrs) in s.produced;
    if s.workers[w].Fanning? && s.workers[w].senders != [] { FanReachesOwn(s, w); }
  }

  lemma HonestStep(s: State, a: Action)
    requires AllHonest(s) && Placed(s) && Enabled(s, a)
    ensures AllHonest(Step(s, a))
  {
    hide Placed, AdvanceRequester, AnswerStep, PutStep, FanStep;
    match a
    case Advance(r) => HonestRequester(s, r);
    case Answer(w, addrs) => HonestAnswer(s, w, addrs);
    case Put(w, victim) => HonestPut(s, w, victim);
    case Fan(w) => HonestFan(s, w);
    case _ =>
  }

  lemma CacheBounded(s: State, a: Action)
    requires |s.cache| <= CACHE_MAX && Enabled(s, a)
    ensures |Step(s, a).cache| <= CACHE_MAX
  {
    hide AfterPut, Attach, Move, Senders, Deliver;
    var s' := Step(s, a);
    if a.Put? {
      PutBounded(s.cache, s.workers[a.w].host, s.workers[a.w].addrs, s.now, a.victim);
    } else if a.Advance? && s.reqs[a.r].Start? {
      SmallerMap(s.cache, s.reqs[a.r].host);
    }
  }

  lemma SmallerMap(m: map<Host, CacheEntry>, k: Host)
    ensures |m - {k}| <= |m|
  {
    assert (m - {k}).Keys == m.Keys - {k};
    assert |m.Keys| == |m| && |(m - {k}).Keys| == |m - {k}|;
    if k !in m { assert m - {k} == m; }
  }

  lemma StepKeepsInv(s: State, a: Action)
    requires Inv(s) && Enabled(s, a)
    ensures Inv(Step(s, a))
  {
    hide Owned, Placed, AllHonest, Step, Enabled;
    OwnedStep(s, a);
    PlacedStep(s, a);
    HonestStep(s, a);
    CacheBounded(s, a);
  }

  lemma InitInv(s: State)
    requires Init(s)
    ensures Inv(s)
  {
  }

  lemma {:induction false} RunKeepsInv(s: State, run: seq<Action>)
    requires Inv(s) && CanRun(s, run)
    ensures Inv(Run(s, run))
    decreases run
  {
    hide Inv, Enabled, Step;
    if run != [] {
      StepKeepsInv(s, run[0]);
      RunKeepsInv(Step(s, run[0]), run[1..]);
    }
  }

  // ---- What it says about the program's own state ----

  /** A host is in the in-flight table exactly when somebody is to remove it, and that is one:
      a leader that has not enqueued, one queued job, or one worker. */
  lemma OneOwner(s: State, h: Host, o1: Owner, o2: Owner)
    requires Inv(s)
    ensures h in s.inFlight <==> exists o :: OwnerFits(s.reqs, s.jobs, s.workers, h, o)
    ensures OwnerFits(s.reqs, s.jobs, s.workers, h, o1) && OwnerFits(s.reqs, s.jobs, s.workers, h, o2) ==> o1 == o2
    ensures Distinct(s.jobs)
  {
    hide Placed, AllHonest;
    forall o | OwnerFits(s.reqs, s.jobs, s.workers, h, o) ensures OwnedBy(s.owner, h, o) { FitsOwns(s, h, o); }
    if h in s.inFlight {
      assert OwnerFits(s.reqs, s.jobs, s.workers, h, s.owner[h]);
    }
  }

  lemma FitsOwns(s: State, h: Host, o: Owner)
    requires Owned(s) && OwnerFits(s.reqs, s.jobs, s.workers, h, o)
    ensures OwnedBy(s.owner, h, o)
  {
    match o
    case Leader(r) => LeaderHasEntry(s, r);
    case Job =>
      var i :| 0 <= i < |s.jobs| && s.jobs[i] == h;
      assert OwnedBy(s.owner, s.jobs[i], Job);
    case ByWorker(w) => HolderHasEntry(s, w);
  }

  /** A sender is nowhere twice, and a requester in recv has it with somebody who works for its host. */
  lemma OnePlace(s: State, r: nat, p1: Place, p2: Place)
    requires Inv(s)
    ensures PlaceFits(s.inFlight, s.workers, s.reqs, r, p1) && PlaceFits(s.inFlight, s.workers, s.reqs, r, p2) ==>
        p1 == p2
    ensures r in s.reqs && s.reqs[r].Waiting? ==>
              exists p :: PlaceFits(s.inFlight, s.workers, s.reqs, r, p)
                  && ServesHost(s.workers, s.reqs, p, s.reqs[r].host)
    ensures forall h :: h in s.inFlight ==> Distinct(s.inFlight[h])
    ensures forall w :: 0 <= w < |s.workers| && s.workers[w].Fanning? ==> Distinct(s.workers[w].senders)
    ensures forall d :: d in s.reqs && s.reqs[d].Draining? ==> Distinct(s.reqs[d].senders)
  {
    hide Owned, AllHonest;
    forall p | PlaceFits(s.inFlight, s.workers, s.reqs, r, p) ensures PlacedAt(s.place, r, p) { PlaceKnown(s, r, p); }
    if r in s.reqs && s.reqs[r].Waiting? {
      SenderKnown(s, r);
      assert PlaceFits(s.inFlight, s.workers, s.reqs, r, s.place[r]);
    }
    assert forall h :: h in s.inFlight ==> AllAt(s.place, Senders(s.inFlight, h), InEntry(h));
    assert forall w: nat :: w < |s.workers| && s.workers[w].Fanning? ==>
        AllAt(s.place, WorkerSenders(s.workers, w), WithWorker(w));
    assert forall d: nat :: d in s.reqs && s.reqs[d].Draining? ==>
        AllAt(s.place, DrainerSenders(s.reqs, d), WithDrainer(d));
  }

  lemma PlaceKnown(s: State, r: nat, p: Place)
    requires Placed(s) && PlaceFits(s.inFlight, s.workers, s.reqs, r, p)
    ensures PlacedAt(s.place, r, p)
  {
    hide SendersFit;
    var senders := match p case InEntry(h) => Senders(s.inFlight, h)
                           case WithWorker(w) => WorkerSenders(s.workers, w)
                           case WithDrainer(d) => DrainerSenders(s.reqs, d);
    assert AllAt(s.place, senders, p);
    var i :| 0 <= i < |senders| && senders[i] == r;
    assert PlacedAt(s.place, senders[i], p);
  }

  ghost predicate Answered(s: State, r: nat, addrs: Addrs) {
    r in s.reqs && (s.reqs[r].Replied? || s.reqs[r].Done?) && s.reqs[r].addrs == addrs
  }

  lemma DeliverKeepsAnswers(reqs: map<nat, Requester>, to: nat, x: Addrs)
    ensures forall r :: r in reqs && !reqs[r].Waiting? ==>
        r in Deliver(reqs, to, x) && Deliver(reqs, to, x)[r] == reqs[r]
  {
  }

  lemma OthersLeaveRequester(s: State, q: nat, r: nat)
    requires q in s.reqs && CanAdvance(s.reqs[q]) && q != r && r in s.reqs && !s.reqs[r].Waiting?
    ensures r in AdvanceRequester(s, q).reqs && AdvanceRequester(s, q).reqs[r] == s.reqs[r]
  {
    hide Hit, Attach, Move, Senders, Deliver;
    if s.reqs[q].Draining? && s.reqs[q].senders != [] {
      var senders := s.reqs[q].senders;
      DeliverKeepsAnswers(s.reqs[q := Draining(s.reqs[q].host, senders[1..])], senders[0], []);
    }
  }

  /** Nobody else changes a requester that is not in recv. */
  lemma OthersLeave(s: State, a: Action, r: nat)
    requires Enabled(s, a) && a != Advance(r) && r in s.reqs && !s.reqs[r].Waiting?
    ensures r in Step(s, a).reqs && Step(s, a).reqs[r] == s.reqs[r]
  {
    hide AdvanceRequester, Move, Senders, AfterPut, Deliver;
    match a
    case Advance(q) => OthersLeaveRequester(s, q, r);
    case Fan(w) =>
      if s.workers[w].Fanning? && s.workers[w].senders != [] {
        DeliverKeepsAnswers(s.reqs, s.workers[w].senders[0], s.workers[w].addrs);
      }
    case _ =>
  }

  lemma AnswerStays(s: State, a: Action, r: nat, addrs: Addrs)
    requires Enabled(s, a) && Answered(s, r, addrs)
    ensures Answered(Step(s, a), r, addrs)
  {
    if a != Advance(r) {
      hide Step;
      OthersLeave(s, a, r);
    }
  }

  /** The first reply is the only one: no later step changes an answer. */
  lemma {:induction false} AnswerIsFinal(s: State, run: seq<Action>, r: nat, addrs: Addrs)
    requires CanRun(s, run) && Answered(s, r, addrs)
    ensures Answered(Run(s, run), r, addrs)
    decreases run
  {
    hide Step, Enabled, Answered;
    if run != [] {
      AnswerStays(s, run[0], r, addrs);
      AnswerIsFinal(Step(s, run[0]), run[1..], r, addrs);
    }
  }

  /** An answer, an empty one too, is one that getaddrinfo gave for that very host, unless the name is
      empty or no worker could be spawned. */
  lemma AnswerIsOwn(s: State, r: nat, addrs: Addrs)
    requires Inv(s) && Answered(s, r, addrs)
    ensures s.workers != [] && s.reqs[r].host != "" ==> (s.reqs[r].host, addrs) in s.produced
    ensures s.workers == [] || s.reqs[r].host == "" ==> addrs == [] || (s.reqs[r].host, addrs) in s.produced
  {
    assert Honest(s, s.reqs[r].host, s.reqs[r].addrs);
  }

  // ---- Everybody on one job gets that job's answer ----

  /** The requester is in recv, and the worker that has its sender, or is about to remove the entry
      that has it, holds the answer. */
  predicate ServedBy(s: State, r: nat, w: nat, addrs: Addrs) {
    && r in s.reqs && s.reqs[r].Waiting? && w < |s.workers|
    && match s.workers[w]
       case Resolved(h, x) => x == addrs && PlacedAt(s.place, r, InEntry(h))
       case Cached(h, x) => x == addrs && PlacedAt(s.place, r, InEntry(h))
       case Fanning(_, x, _) => x == addrs && PlacedAt(s.place, r, WithWorker(w))
       case _ => false
  }

  lemma ServedRequester(s: State, q: nat, r: nat, w: nat, addrs: Addrs)
    requires AllHonest(s) && ServedBy(s, r, w, addrs) && q in s.reqs && CanAdvance(s.reqs[q])
    ensures ServedBy(AdvanceRequester(s, q), r, w, addrs)
  {
    hide Attach, Senders, Hit, Move, Deliver;
  }

  /** Nobody else has, or removes, the sender. */
  lemma ServedByOther(s: State, v: nat, r: nat, w: nat, addrs: Addrs)
    requires Owned(s) && Placed(s) && ServedBy(s, r, w, addrs)
    requires v < |s.workers| && v != w && (s.workers[v].Cached? || s.workers[v].Fanning?)
    ensures ServedBy(FanStep(s, v), r, w, addrs)
  {
    hide OwnersFit, LeadersOwn, JobsOwn, PlacesFit, DrainersPlaced, SendersFit, Deliver;
    if s.workers[v].Cached? {
      var h := s.workers[v].host;
      assert AllAt(s.place, Senders(s.inFlight, h), InEntry(h));
      if !s.workers[w].Fanning? {
        assert OwnedBy(s.owner, h, ByWorker(v)) && OwnedBy(s.owner, s.workers[w].host, ByWorker(w));
      }
      forall i | 0 <= i < |Senders(s.inFlight, h)| ensures Senders(s.inFlight, h)[i] != r {
        assert PlacedAt(s.place, Senders(s.inFlight, h)[i], InEntry(h));
      }
    } else if s.workers[v].senders != [] {
      assert AllAt(s.place, WorkerSenders(s.workers, v), WithWorker(v));
      assert PlacedAt(s.place, s.workers[v].senders[0], WithWorker(v));
      OthersWait(s.reqs, s.workers[v].senders[0], s.workers[v].addrs, r);
    }
  }

  lemma OthersWait(reqs: map<nat, Requester>, to: nat, addrs: Addrs, r: nat)
    requires r in reqs && r != to
    ensures r in Deliver(reqs, to, addrs) && Deliver(reqs, to, addrs)[r] == reqs[r]
  {
  }

  lemma DeliverTo(reqs: map<nat, Requester>, r: nat, addrs: Addrs)
    requires r in reqs && reqs[r].Waiting?
    ensures r in Deliver(reqs, r, addrs) && Deliver(reqs, r, addrs)[r] == Replied(reqs[r].host, addrs)
  {
  }

  lemma ServedByOwn(s: State, r: nat, w: nat, addrs: Addrs)
    requires Placed(s) && ServedBy(s, r, w, addrs) && (s.workers[w].Cached? || s.workers[w].Fanning?)
    ensures ServedBy(FanStep(s, w), r, w, addrs) || Answered(FanStep(s, w), r, addrs)
  {
    hide EntriesPlaced, WorkersPlaced, DrainersPlaced, SendersFit, Deliver;
    assert PlaceFits(s.inFlight, s.workers, s.reqs, r, s.place[r]);
    DeliverTo(s.reqs, r, addrs);
    if s.workers[w].Fanning? && s.workers[w].senders[0] != r {
      OthersWait(s.reqs, s.workers[w].senders[0], s.workers[w].addrs, r);
    }
  }

  lemma ServedStep(s: State, a: Action, r: nat, w: nat, addrs: Addrs)
    requires Inv(s) && Enabled(s, a) && ServedBy(s, r, w, addrs)
    ensures ServedBy(Step(s, a), r, w, addrs) || Answered(Step(s, a), r, addrs)
  {
    hide Owned, Placed, AllHonest, AdvanceRequester, FanStep, AfterPut;
    match a
    case Advance(q) => ServedRequester(s, q, r, w, addrs);
    case Fan(v) => if v == w { ServedByOwn(s, r, w, addrs); } else { ServedByOther(s, v, r, w, addrs); }
    case _ =>
  }

  lemma {:induction false} ServedRun(s: State, run: seq<Action>, r: nat, w: nat, addrs: Addrs)
    requires Inv(s) && CanRun(s, run) && ServedBy(s, r, w, addrs)
    ensures ServedBy(Run(s, run), r, w, addrs) || Answered(Run(s, run), r, addrs)
    decreases run
  {
    hide Inv, Step, Enabled, ServedBy, Answered;
    if run != [] {
      StepKeepsInv(s, run[0]);
      ServedStep(s, run[0], r, w, addrs);
      if ServedBy(Step(s, run[0]), r, w, addrs) {
        ServedRun(Step(s, run[0]), run[1..], r, w, addrs);
      } else {
        AnswerIsFinal(Step(s, run[0]), run[1..], r, addrs);
      }
    }
  }

  lemma EntryWaits(s: State, w: nat, r: nat)
    requires Inv(s) && w < |s.workers| && Holds(s.workers[w]) && PlacedAt(s.place, r, InEntry(s.workers[w].host))
    ensures r in s.reqs && s.reqs[r].Waiting?
  {
    hide AllHonest, PlacesFit, EntriesPlaced, WorkersPlaced, DrainersPlaced, OwnersFit, JobsOwn;
    assert SenderFits(s.place, s.workers, s.reqs, r);
    assert OwnedBy(s.owner, s.workers[w].host, ByWorker(w));
  }

  /** Whoever is attached to the host's entry when getaddrinfo answers gets exactly that answer, whatever
      happens next, and has it when nothing can move any more. */
  lemma AnswerReachesAll(s: State, w: nat, addrs: Addrs, run: seq<Action>, r: nat)
    requires Inv(s) && Enabled(s, Answer(w, addrs)) && PlacedAt(s.place, r, InEntry(s.workers[w].host))
    requires CanRun(Step(s, Answer(w, addrs)), run)
    ensures var t := Run(Step(s, Answer(w, addrs)), run);
            && (ServedBy(t, r, w, addrs) || Answered(t, r, addrs))
            && (Stuck(t) ==> Answered(t, r, addrs))
  {
    hide Inv, Step, Enabled, Stuck, ServedBy, Answered;
    var s1 := Step(s, Answer(w, addrs));
    AnswerServes(s, w, addrs, r);
    StepKeepsInv(s, Answer(w, addrs));
    ServedRun(s1, run, r, w, addrs);
    RunKeepsInv(s1, run);
    if Stuck(Run(s1, run)) {
      StuckMeansAnswered(Run(s1, run));
      DoneNotServed(Run(s1, run), r, w, addrs);
    }
  }

  lemma AnswerServes(s: State, w: nat, addrs: Addrs, r: nat)
    requires Inv(s) && Enabled(s, Answer(w, addrs)) && PlacedAt(s.place, r, InEntry(s.workers[w].host))
    ensures ServedBy(Step(s, Answer(w, addrs)), r, w, addrs)
  {
    hide Inv;
    EntryWaits(s, w, r);
  }

  lemma DoneNotServed(s: State, r: nat, w: nat, addrs: Addrs)
    requires AllAnswered(s)
    ensures !ServedBy(s, r, w, addrs)
  {
  }

  /** So does whoever attaches after that, as long as the entry is there. */
  lemma LateArriverServed(s: State, r: nat, w: nat)
    requires Inv(s) && r in s.reqs && s.reqs[r].Missed? && w < |s.workers|
    requires (s.workers[w].Resolved? || s.workers[w].Cached?) && s.workers[w].host == s.reqs[r].host
    ensures Enabled(s, Advance(r)) && ServedBy(Step(s, Advance(r)), r, w, s.workers[w].addrs)
  {
    hide Placed, AllHonest, OwnersFit, LeadersOwn, JobsOwn, Attach;
    assert OwnedBy(s.owner, s.workers[w].host, ByWorker(w));
  }

  /** An entry grows at its end only. */
  lemma EntryInOrder(s: State, a: Action, h: Host)
    requires Enabled(s, a) && h in s.inFlight && h in Step(s, a).inFlight
    ensures s.inFlight[h] <= Step(s, a).inFlight[h] && |Step(s, a).inFlight[h]| <= |s.inFlight[h]| + 1
  {
    hide Hit, Move, Deliver, AfterPut, Senders;
  }

  /** And replies go out in that order. */
  lemma FanInOrder(s: State, w: nat)
    requires w < |s.workers| && (s.workers[w].Cached? || s.workers[w].Fanning?)
    ensures s.workers[w].Cached? ==>
              WorkerSenders(FanStep(s, w).workers, w) == Senders(s.inFlight, s.workers[w].host)
    ensures s.workers[w].Fanning? && s.workers[w].senders != [] ==>
              && s.workers[w].senders == [s.workers[w].senders[0]] + WorkerSenders(FanStep(s, w).workers, w)
              && FanStep(s, w).reqs == Deliver(s.reqs, s.workers[w].senders[0], s.workers[w].addrs)
  {
    hide Move, Deliver, Senders;
  }

  // ---- Jobs in order ----

  function Takes(run: seq<Action>): nat {
    if run == [] then 0 else (if run[0].Take? then 1 else 0) + Takes(run[1..])
  }

  /** later is what is left of jobs, with some more behind, when `takes` have been taken. */
  ghost predicate TakenFrom(jobs: seq<Host>, takes: nat, later: seq<Host>) {
    exists more :: takes <= |jobs + more| && later == (jobs + more)[takes..]
  }

  /** Jobs are taken in the order in which they came. */
  lemma {:induction false} JobsInOrder(s: State, run: seq<Action>)
    requires CanRun(s, run)
    ensures TakenFrom(s.jobs, Takes(run), Run(s, run).jobs)
    decreases run
  {
    hide Step, Enabled, TakenFrom;
    if run == [] {
      NoneTaken(s.jobs);
    } else {
      var s1 := Step(s, run[0]);
      JobsInOrder(s1, run[1..]);
      JobsStep(s, run[0]);
      if run[0].Take? {
        OneTaken(s.jobs[0], s1.jobs, Takes(run[1..]), Run(s, run).jobs);
      } else {
        SomeAdded(s.jobs, s1.jobs, Takes(run[1..]), Run(s, run).jobs);
      }
    }
  }

  lemma NoneTaken(jobs: seq<Host>)
    ensures TakenFrom(jobs, 0, jobs)
  {
    assert jobs == (jobs + [])[0..];
  }

  lemma OneTaken(first: Host, rest: seq<Host>, takes: nat, later: seq<Host>)
    requires TakenFrom(rest, takes, later)
    ensures TakenFrom([first] + rest, takes + 1, later)
  {
    var more :| takes <= |rest + more| && later == (rest + more)[takes..];
    assert [first] + rest + more == [first] + (rest + more);
    assert later == ([first] + rest + more)[takes + 1..];
  }

  lemma SomeAdded(jobs: seq<Host>, longer: seq<Host>, takes: nat, later: seq<Host>)
    requires jobs <= longer && TakenFrom(longer, takes, later)
    ensures TakenFrom(jobs, takes, later)
  {
    var more :| takes <= |longer + more| && later == (longer + more)[takes..];
    var added := longer[|jobs|..];
    assert jobs + (added + more) == longer + more;
  }

  lemma JobsStep(s: State, a: Action)
    requires Enabled(s, a)
    ensures if a.Take? then s.jobs == [s.jobs[0]] + Step(s, a).jobs else s.jobs <= Step(s, a).jobs
  {
    hide Hit, Attach, Move, Senders, Deliver, AfterPut;
  }

  // ---- Progress ----

  /** How many steps a requester can still take or cause. A drainer that still has to send to
      itself has one more. */
  function RequesterWork(q: Requester, r: nat): nat {
    match q
    case Start(_) => 10
    case Missed(_) => 9
    case Leading(_) => 8
    case Failed(_) => 3
    case Draining(_, senders) => if r in senders then 2 else 1
    case Waiting(_) => 2
    case Replied(_, _) => 1
    case Done(_, _) => 0
  }

  function WorkerWork(w: Worker): nat {
    match w
    case Idle => 0
    case Fanning(_, _, _) => 1
    case Cached(_, _) => 2
    case Resolved(_, _) => 3
    case Resolving(_) => 4
  }

  ghost function RequestersWork(reqs: map<nat, Requester>): nat
    decreases reqs.Keys
  {
    if reqs.Keys == {} then 0
    else
      var r :| r in reqs;
      RequesterWork(reqs[r], r) + RequestersWork(reqs - {r})
  }

  function WorkersWork(workers: seq<Worker>): nat {
    if workers == [] then 0 else WorkerWork(workers[0]) + WorkersWork(workers[1..])
  }

  ghost function Work(s: State): nat {
    RequestersWork(s.reqs) + WorkersWork(s.workers) + 5 * |s.jobs|
  }

  lemma {:induction false} RequestersWithout(reqs: map<nat, Requester>, r: nat)
    requires r in reqs
    ensures RequestersWork(reqs) == RequesterWork(reqs[r], r) + RequestersWork(reqs - {r})
    decreases reqs.Keys
  {
    hide RequesterWork;
    var d :| d in reqs && RequestersWork(reqs) == RequesterWork(reqs[d], d) + RequestersWork(reqs - {d});
    if d != r {
      RequestersWithout(reqs - {d}, r);
      RequestersWithout(reqs - {r}, d);
      assert reqs - {d} - {r} == reqs - {r} - {d};
    }
  }

  lemma RequestersUpdate(reqs: map<nat, Requester>, r: nat, q: Requester)
    requires r in reqs
    ensures RequestersWork(reqs[r := q]) == RequestersWork(reqs) - RequesterWork(reqs[r], r) + RequesterWork(q, r)
  {
    hide RequesterWork, RequestersWork;
    RequestersWithout(reqs, r);
    RequestersWithout(reqs[r := q], r);
    assert reqs[r := q] - {r} == reqs - {r};
  }

  lemma {:induction false} WorkersUpdate(workers: seq<Worker>, w: nat, v: Worker)
    requires w < |workers|
    ensures WorkersWork(workers[w := v]) == WorkersWork(workers) - WorkerWork(workers[w]) + WorkerWork(v)
  {
    if w == 0 {
      assert workers[w := v][1..] == workers[1..];
    } else {
      assert workers[w := v][1..] == workers[1..][w - 1 := v];
      WorkersUpdate(workers[1..], w - 1, v);
    }
  }

  /** A drainer sends to itself or to a requester in recv. */
  lemma DrainReaches(s: State, r: nat, host: Host, senders: seq<nat>)
    requires Placed(s) && r in s.reqs && s.reqs[r] == Draining(host, senders) && senders != []
    ensures senders[0] == r || (senders[0] in s.reqs && s.reqs[senders[0]].Waiting?)
    ensures senders[0] !in senders[1..]
  {
    hide PlacesFit, EntriesPlaced, WorkersPlaced, SendersFit;
    assert AllAt(s.place, DrainerSenders(s.reqs, r), WithDrainer(r));
    assert PlacedAt(s.place, senders[0], WithDrainer(r));
    ReceiverWaits(s.place, s.workers, s.reqs, senders[0], WithDrainer(r));
  }

  lemma DrainWork(s: State, r: nat, host: Host, senders: seq<nat>)
    requires Placed(s) && r in s.reqs && s.reqs[r] == Draining(host, senders)
    ensures RequestersWork(DrainNext(s, r, host, senders).reqs) < RequestersWork(s.reqs)
  {
    hide Placed, RequestersWork;
    if senders == [] {
      RequestersUpdate(s.reqs, r, Done(host, []));
    } else {
      DrainReaches(s, r, host, senders);
      var to := senders[0];
      var rest := Draining(host, senders[1..]);
      RequestersUpdate(s.reqs, r, rest);
      assert senders == [to] + senders[1..];
      assert r in senders <==> r == to || r in senders[1..];
      if to != r {
        RequestersUpdate(s.reqs[r := rest], to, Replied(s.reqs[to].host, []));
      }
    }
  }

  lemma RequesterStepWork(s: State, r: nat)
    requires Placed(s) && r in s.reqs && CanAdvance(s.reqs[r])
    ensures Work(AdvanceRequester(s, r)) < Work(s)
  {
    hide Placed, RequestersWork, WorkersWork, DrainNext, Attach, Move, Hit;
    var s' := AdvanceRequester(s, r);
    match s.reqs[r]
    case Draining(host, senders) =>
      DrainWork(s, r, host, senders);
      assert s'.workers == s.workers && s'.jobs == s.jobs by { DrainLeaves(s, r, host, senders); }
    case Start(_) => RequestersUpdate(s.reqs, r, s'.reqs[r]);
    case Missed(_) => RequestersUpdate(s.reqs, r, s'.reqs[r]);
    case Leading(_) => RequestersUpdate(s.reqs, r, s'.reqs[r]);
    case Failed(_) => RequestersUpdate(s.reqs, r, s'.reqs[r]);
    case Replied(_, _) => RequestersUpdate(s.reqs, r, s'.reqs[r]);
  }

  lemma DrainLeaves(s: State, r: nat, host: Host, senders: seq<nat>)
    ensures DrainNext(s, r, host, senders).workers == s.workers && DrainNext(s, r, host, senders).jobs == s.jobs
  {
  }

  lemma FanWork(s: State, w: nat)
    requires Placed(s) && w < |s.workers| && (s.workers[w].Cached? || s.workers[w].Fanning?)
    ensures Work(FanStep(s, w)) < Work(s)
  {
    hide Placed, RequestersWork, WorkersWork, Move, Senders;
    var s' := FanStep(s, w);
    WorkersUpdate(s.workers, w, s'.workers[w]);
    if s.workers[w].Fanning? && s.workers[w].senders != [] {
      FanReachesOwn(s, w);
      var to := s.workers[w].senders[0];
      RequestersUpdate(s.reqs, to, Replied(s.reqs[to].host, s.workers[w].addrs));
    }
  }

  lemma StepWork(s: State, a: Action)
    requires Placed(s) && Enabled(s, a) && !a.Tick? && !a.Request?
    ensures Work(Step(s, a)) < Work(s)
  {
    hide Placed, RequestersWork, WorkersWork, AdvanceRequester, FanStep, AfterPut;
    var s' := Step(s, a);
    match a
    case Advance(r) => RequesterStepWork(s, r);
    case Fan(w) => FanWork(s, w);
    case Take(w) => WorkersUpdate(s.workers, w, s'.workers[w]);
    case Answer(w, _) => WorkersUpdate(s.workers, w, s'.workers[w]);
    case Put(w, _) => WorkersUpdate(s.workers, w, s'.workers[w]);
  }

  /** Nothing can happen but new requests and the passing of time. */
  ghost predicate Stuck(s: State) {
    forall a :: Enabled(s, a) ==> a.Tick? || a.Request?
  }

  predicate AllAnswered(s: State) {
    forall r :: r in s.reqs ==> s.reqs[r].Done?
  }

  lemma StuckWorkers(s: State, w: nat)
    requires Stuck(s) && w < |s.workers|
    ensures s.workers[w].Idle? && s.jobs == []
  {
    assert !Enabled(s, Take(w)) && !Enabled(s, Answer(w, [])) && !Enabled(s, Fan(w));
    var victim := SomeVictim(s.cache);
    assert !Enabled(s, Put(w, victim));
  }

  lemma SomeVictim(entries: map<Host, CacheEntry>) returns (victim: Host)
    ensures CanEvict(entries, victim)
  {
    victim := "";
    if |entries| >= CACHE_MAX {
      assert entries.Keys != {};
      victim :| victim in entries;
    }
  }

  lemma StuckMeansAnswered(s: State)
    requires Inv(s) && Stuck(s)
    ensures AllAnswered(s)
  {
    hide AllHonest, Placed, Stuck;
    forall r | r in s.reqs ensures s.reqs[r].Done? {
      StuckRequester(s, r);
      if s.reqs[r].Waiting? {
        SenderKnown(s, r);
        match s.place[r]
        case WithWorker(w) => StuckWorkers(s, w);
        case WithDrainer(d) => StuckRequester(s, d);
        case InEntry(h) => EntryMoves(s, r, h);
      }
    }
  }

  lemma StuckRequester(s: State, r: nat)
    requires Stuck(s) && r in s.reqs
    ensures s.reqs[r].Waiting? || s.reqs[r].Done?
  {
    assert !Enabled(s, Advance(r));
  }

  /** An entry has an owner who can move. */
  lemma EntryMoves(s: State, r: nat, h: Host)
    requires Inv(s) && PlacedAt(s.place, r, InEntry(h))
    ensures !Stuck(s)
  {
    hide AllHonest, Stuck;
    assert PlaceFits(s.inFlight, s.workers, s.reqs, r, s.place[r]);
    assert h in s.owner && OwnerFits(s.reqs, s.jobs, s.workers, h, s.owner[h]);
    if Stuck(s) {
      match s.owner[h]
      case Leader(x) => StuckRequester(s, x);
      case Job => StuckWorkers(s, 0);
      case ByWorker(w) => StuckWorkers(s, w);
    }
  }

  predicate NoNewRequests(run: seq<Action>) {
    forall k :: 0 <= k < |run| ==> !run[k].Request?
  }

  /** The steps of a run that are not just time passing. */
  function Moves(run: seq<Action>): nat {
    if run == [] then 0 else (if run[0].Tick? then 0 else 1) + Moves(run[1..])
  }

  /** When no new requests come every run is bounded, and one that cannot go on has answered
      everybody, whatever the workers got and even when no worker could be spawned. */
  lemma {:induction false} EverybodyIsAnswered(s: State, run: seq<Action>)
    requires Inv(s) && CanRun(s, run) && NoNewRequests(run)
    ensures Moves(run) <= Work(s)
    ensures Stuck(Run(s, run)) ==> AllAnswered(Run(s, run))
    decreases run
  {
    hide Owned, Placed, AllHonest, Step, Enabled, RequestersWork, WorkersWork, Stuck, AllAnswered;
    if run == [] {
      if Stuck(s) { StuckMeansAnswered(s); }
    } else {
      StepKeepsInv(s, run[0]);
      if run[0].Tick? { TickWork(s); } else { StepWork(s, run[0]); }
      EverybodyIsAnswered(Step(s, run[0]), run[1..]);
    }
  }

  lemma TickWork(s: State)
    ensures Work(Step(s, Tick)) == Work(s)
  {
    hide RequestersWork, WorkersWork;
  }

  // ---- What collapsing does not promise ----

  lemma ExtendRun(s: State, run: seq<Action>, a: Action)
    requires CanRun(s, run) && Enabled(Run(s, run), a)
    ensures CanRun(s, run + [a]) && Run(s, run + [a]) == Step(Run(s, run), a)
    decreases run
  {
    hide Enabled, Step;
    if run == [] {
      assert run + [a] == [a] && CanRun(Step(s, a), []);
    } else {
      assert (run + [a])[1..] == run[1..] + [a];
      ExtendRun(Step(s, run[0]), run[1..], a);
    }
  }

  ghost predicate Reachable(s: State) {
    exists init, run :: Init(init) && CanRun(init, run) && Run(init, run) == s
  }

  lemma ReachStep(s: State, a: Action)
    requires Reachable(s) && Enabled(s, a)
    ensures Reachable(Step(s, a))
  {
    hide Init, Step, Enabled;
    var init, run :| Init(init) && CanRun(init, run) && Run(init, run) == s;
    ExtendRun(init, run, a);
  }

  /** In every reachable state. */
  lemma ReachableInv(s: State)
    requires Reachable(s)
    ensures Inv(s)
  {
    hide Inv, CanRun, Init;
    var init, run :| Init(init) && CanRun(init, run) && Run(init, run) == s;
    InitInv(init);
    RunKeepsInv(init, run);
  }

  // ---- Who attaches ----

  /** The requester's sender is handed out: in an entry, or wherever entries go. */
  ghost predicate Attached(s: State, r: nat) {
    r in s.place || exists h :: r in Senders(s.inFlight, h)
  }

  ghost predicate EverAttached(s: State, run: seq<Action>, r: nat)
    requires CanRun(s, run)
    decreases run
  {
    Attached(s, r) || (run != [] && EverAttached(Step(s, run[0]), run[1..], r))
  }

  /** The state that the requester's first own step in the run starts from: its cache lookup. */
  function OwnLookUp(s: State, run: seq<Action>, r: nat): Option<State>
    requires CanRun(s, run)
    decreases run
  {
    if run == [] then None
    else if run[0] == Advance(r) then Some(s)
    else OwnLookUp(Step(s, run[0]), run[1..], r)
  }

  function OwnSteps(run: seq<Action>, r: nat): nat {
    if run == [] then 0 else (if run[0] == Advance(r) then 1 else 0) + OwnSteps(run[1..], r)
  }

  lemma NotAttached(s: State, r: nat)
    requires Inv(s) && r in s.reqs
    requires s.reqs[r].Start? || s.reqs[r].Missed? || s.reqs[r].Done?
    ensures !Attached(s, r)
  {
    hide Owned, AllHonest, Placed, Senders;
    SenderKnown(s, r);
    forall h ensures r !in Senders(s.inFlight, h) {
      if r in Senders(s.inFlight, h) { PlaceKnown(s, r, InEntry(h)); }
    }
  }

  /** Who has its answer is never attached again. */
  lemma {:induction false} DoneNeverAttaches(s: State, run: seq<Action>, r: nat)
    requires Inv(s) && CanRun(s, run) && r in s.reqs && s.reqs[r].Done?
    ensures !EverAttached(s, run, r)
    decreases run
  {
    hide Inv, Step, Enabled, Attached;
    NotAttached(s, r);
    if run != [] {
      StepKeepsInv(s, run[0]);
      DoneStays(s, run[0], r);
      DoneNeverAttaches(Step(s, run[0]), run[1..], r);
    }
  }

  lemma DoneStays(s: State, a: Action, r: nat)
    requires Enabled(s, a) && r in s.reqs && s.reqs[r].Done?
    ensures r in Step(s, a).reqs && Step(s, a).reqs[r] == s.reqs[r]
  {
    hide Step;
    OthersLeave(s, a, r);
  }

  /** Who missed attaches with its next own step, whatever was written to the cache meanwhile. */
  lemma {:induction false} MissAttaches(s: State, run: seq<Action>, r: nat, host: Host)
    requires Inv(s) && CanRun(s, run) && r in s.reqs && s.reqs[r] == Missed(host)
    ensures EverAttached(s, run, r) <==> OwnSteps(run, r) > 0
    decreases run
  {
    hide Inv, Step, Enabled, Attached;
    NotAttached(s, r);
    if run != [] {
      StepKeepsInv(s, run[0]);
      if run[0] == Advance(r) {
        AttachesNow(s, r, host);
      } else {
        OthersLeave(s, run[0], r);
        MissAttaches(Step(s, run[0]), run[1..], r, host);
      }
    }
  }

  lemma AttachesNow(s: State, r: nat, host: Host)
    requires r in s.reqs && s.reqs[r] == Missed(host)
    ensures Enabled(s, Advance(r)) && Attached(Step(s, Advance(r)), r)
  {
    hide Attach, Senders;
  }

  lemma LookUpDecides(s: State, r: nat, host: Host)
    requires r in s.reqs && s.reqs[r] == Start(host)
    ensures r in Step(s, Advance(r)).reqs
    ensures Hit(s.cache, host, s.now) ==> Step(s, Advance(r)).reqs[r] == Done(host, s.cache[host].addrs)
    ensures !Hit(s.cache, host, s.now) ==> Step(s, Advance(r)).reqs[r] == Missed(host)
  {
    hide Hit;
  }

  /** Over every run: a requester attaches exactly when its own lookup found no unexpired entry,
      as soon as it takes one more step. One that hit never does. */
  lemma {:induction false} AttachesIffMissed(s: State, run: seq<Action>, r: nat, host: Host)
    requires Inv(s) && CanRun(s, run) && r in s.reqs && s.reqs[r] == Start(host)
    ensures EverAttached(s, run, r) <==>
              var at := OwnLookUp(s, run, r);
              at.Some? && !Hit(at.value.cache, host, at.value.now) && OwnSteps(run, r) >= 2
    decreases run
  {
    hide Inv, Step, Enabled, Attached, Hit;
    NotAttached(s, r);
    if run != [] {
      StepKeepsInv(s, run[0]);
      if run[0] == Advance(r) {
        LookUpDecides(s, r, host);
        if Hit(s.cache, host, s.now) {
          DoneNeverAttaches(Step(s, run[0]), run[1..], r);
        } else {
          MissAttaches(Step(s, run[0]), run[1..], r, host);
        }
      } else {
        OthersLeave(s, run[0], r);
        AttachesIffMissed(Step(s, run[0]), run[1..], r, host);
      }
    }
  }

  // ---- What the cache write does for later requesters ----

  /** Some write in the run makes room by dropping the host's entry. */
  predicate Evicts(s: State, run: seq<Action>, h: Host)
    requires CanRun(s, run)
    decreases run
  {
    run != [] && (EvictsNow(s, run[0], h) || Evicts(Step(s, run[0]), run[1..], h))
  }

  predicate EvictsNow(s: State, a: Action, h: Host)
    requires Enabled(s, a)
  {
    a.Put? && |s.cache| >= CACHE_MAX && a.victim == h && s.workers[a.w].host != h
  }

  /** Some write in the run is for the host. */
  predicate Rewrites(s: State, run: seq<Action>, h: Host)
    requires CanRun(s, run)
    decreases run
  {
    run != [] && (RewritesNow(s, run[0], h) || Rewrites(Step(s, run[0]), run[1..], h))
  }

  predicate RewritesNow(s: State, a: Action, h: Host)
    requires Enabled(s, a)
  {
    a.Put? && s.workers[a.w].host == h
  }

  function Ticks(run: seq<Action>): nat {
    if run == [] then 0 else (if run[0].Tick? then 1 else 0) + Ticks(run[1..])
  }

  /** The host is cached, for at most CACHE_TTL and at least the given time. */
  predicate CachedFor(s: State, h: Host, time: nat) {
    h in s.cache && s.now + time < s.cache[h].expires <= s.now + CACHE_TTL
  }

  lemma CachedStep(s: State, a: Action, h: Host, time: nat)
    requires Enabled(s, a) && !EvictsNow(s, a, h)
    requires CachedFor(s, h, time) && (a.Tick? ==> time > 0)
    ensures CachedFor(Step(s, a), h, if a.Tick? then time - 1 else time)
    ensures !RewritesNow(s, a, h) ==> Step(s, a).cache[h].addrs == s.cache[h].addrs
  {
    hide Attach, Move, Senders, Deliver;
  }

  lemma {:induction false} StaysCached(s: State, run: seq<Action>, h: Host)
    requires CanRun(s, run) && !Evicts(s, run, h) && CachedFor(s, h, Ticks(run))
    ensures Hit(Run(s, run).cache, h, Run(s, run).now)
    ensures !Rewrites(s, run, h) ==> Run(s, run).cache[h].addrs == s.cache[h].addrs
    decreases run
  {
    hide Step, Enabled, EvictsNow, RewritesNow;
    if run != [] {
      CachedStep(s, run[0], h, Ticks(run));
      StaysCached(Step(s, run[0]), run[1..], h);
    }
  }

  /** The true part of the comment on the cache write: for 60 seconds after it, unless the entry is
      dropped to make room, a lookup of the host is answered at once and that requester never attaches. */
  lemma WriteServesLookUps(s: State, w: nat, victim: Host, run: seq<Action>, r: nat, more: seq<Action>)
    requires Inv(s) && Enabled(s, Put(w, victim)) && CanRun(Step(s, Put(w, victim)), run)
    requires Ticks(run) < CACHE_TTL && !Evicts(Step(s, Put(w, victim)), run, s.workers[w].host)
    requires var t := Run(Step(s, Put(w, victim)), run);
             && r in t.reqs && t.reqs[r] == Start(s.workers[w].host)
             && Enabled(t, Advance(r)) && CanRun(Step(t, Advance(r)), more)
    ensures var (h, addrs, t) := (s.workers[w].host, s.workers[w].addrs, Run(Step(s, Put(w, victim)), run));
            var t' := Step(t, Advance(r));
            && r in t'.reqs && h in t.cache && t'.reqs[r] == Done(h, t.cache[h].addrs)
            && (!Rewrites(Step(s, Put(w, victim)), run, h) ==> t'.reqs[r] == Done(h, addrs))
            && !EverAttached(t', more, r)
  {
    hide Inv, Step, Evicts, Rewrites, Attached, EverAttached;
    var (h, s1) := (s.workers[w].host, Step(s, Put(w, victim)));
    WriteCaches(s, w, victim);
    StaysCached(s1, run, h);
    StepKeepsInv(s, Put(w, victim));
    RunKeepsInv(s1, run);
    var t := Run(s1, run);
    LookUpDecides(t, r, h);
    StepKeepsInv(t, Advance(r));
    DoneNeverAttaches(Step(t, Advance(r)), more, r);
  }

  lemma WriteCaches(s: State, w: nat, victim: Host)
    requires Enabled(s, Put(w, victim))
    ensures CachedFor(Step(s, Put(w, victim)), s.workers[w].host, CACHE_TTL - 1)
    ensures Step(s, Put(w, victim)).cache[s.workers[w].host].addrs == s.workers[w].addrs
  {
    hide AfterPut;
    var (h, addrs) := (s.workers[w].host, s.workers[w].addrs);
    PutIsFound(s.cache, h, addrs, s.now, victim, h, s.now + CACHE_TTL - 1);
    PutIsFound(s.cache, h, addrs, s.now, victim, h, s.now + CACHE_TTL);
  }

  /** One worker, and two requesters that both missed the cache; the first one leads and is answered. */
  function BothMissed(): State {
    State(0, map[], map[], [], map[0 := Missed("h"), 1 := Missed("h")], [Idle], map[], map[], {})
  }

  function FirstResolving(): State {
    State(0, map[], map["h" := [0]], [], map[0 := Waiting("h"), 1 := Missed("h")], [Resolving("h")],
          map["h" := ByWorker(0)], map[0 := InEntry("h")], {})
  }

  function FirstAnswered(): State {
    State(0, map["h" := CacheEntry(["ip"], CACHE_TTL)], map[], [], map[0 := Replied("h", ["ip"]), 1 := Missed("h")],
          [Fanning("h", ["ip"], [])], map[], map[], {("h", ["ip"])})
  }

  lemma BothMissedReachable()
    ensures Reachable(BothMissed())
  {
    hide Reachable, Deliver, Attach, Move, AfterPut;
    var s0 := State(0, map[], map[], [], map[], [Idle], map[], map[], {});
    InitReachable(s0);
    ReachStep(s0, Request(0, "h"));
    var s1 := s0.(reqs := map[0 := Start("h")]);
    assert Step(s0, Request(0, "h")) == s1;
    ReachStep(s1, Advance(0));
    var s2 := s0.(reqs := map[0 := Missed("h")]);
    assert Step(s1, Advance(0)) == s2;
    ReachStep(s2, Request(1, "h"));
    var s3 := s0.(reqs := map[0 := Missed("h"), 1 := Start("h")]);
    assert Step(s2, Request(1, "h")) == s3;
    ReachStep(s3, Advance(1));
    assert Step(s3, Advance(1)) == BothMissed();
  }

  lemma InitReachable(s: State)
    requires Init(s)
    ensures Reachable(s)
  {
    assert CanRun(s, []) && Run(s, []) == s;
  }

  lemma FirstResolvingReachable()
    ensures Reachable(FirstResolving())
  {
    hide Reachable, Deliver, Move, AfterPut;
    BothMissedReachable();
    var s0 := BothMissed();
    ReachStep(s0, Advance(0));
    var s1 := s0.(inFlight := map["h" := [0]], reqs := map[0 := Leading("h"), 1 := Missed("h")],
                  owner := map["h" := Leader(0)], place := map[0 := InEntry("h")]);
    assert Step(s0, Advance(0)) == s1;
    ReachStep(s1, Advance(0));
    var s2 := s1.(jobs := ["h"], reqs := map[0 := Waiting("h"), 1 := Missed("h")], owner := map["h" := Job]);
    assert Step(s1, Advance(0)) == s2;
    ReachStep(s2, Take(0));
    assert Step(s2, Take(0)) == FirstResolving();
  }

  function FirstCached(): State {
    FirstResolving().(workers := [Cached("h", ["ip"])], cache := map["h" := CacheEntry(["ip"], CACHE_TTL)],
        produced := {("h", ["ip"])})
  }

  lemma FirstCachedReachable()
    ensures Reachable(FirstCached())
  {
    hide Reachable, Move, Deliver, AdvanceRequester;
    FirstResolvingReachable();
    var s0 := FirstResolving();
    ReachStep(s0, Answer(0, ["ip"]));
    var s1 := s0.(workers := [Resolved("h", ["ip"])], produced := {("h", ["ip"])});
    assert Step(s0, Answer(0, ["ip"])) == s1;
    ReachStep(s1, Put(0, ""));
    assert Step(s1, Put(0, "")) == FirstCached();
  }

  lemma FirstAnsweredReachable()
    ensures Reachable(FirstAnswered())
  {
    hide Reachable, AfterPut, AdvanceRequester;
    FirstCachedReachable();
    var s0 := FirstCached();
    ReachStep(s0, Fan(0));
    var s1 := s0.(workers := [Fanning("h", ["ip"], [0])], inFlight := map[], owner := map[],
        place := map[0 := WithWorker(0)]);
    assert Step(s0, Fan(0)) == s1;
    ReachStep(s1, Fan(0));
    assert [0][1..] == [] && map[0 := WithWorker(0)] - {0} == map[];
    assert Step(s1, Fan(0)) == FirstAnswered();
  }

  /** A requester that missed the cache before the worker wrote it leads a second lookup of a
      host that is in the cache and fresh. */
  lemma SecondLookup()
    ensures exists s :: Reachable(s) && 1 in s.reqs && s.reqs[1] == Leading("h") && Hit(s.cache, "h", s.now)
  {
    hide Reachable;
    FirstAnsweredReachable();
    ReachStep(FirstAnswered(), Advance(1));
    assert Step(FirstAnswered(), Advance(1)).reqs[1] == Leading("h");
  }
}
