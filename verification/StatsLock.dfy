/** The stats endpoint under load: cache, one flight per video in each replica,
    and a Redis lock with expiry and compare-and-delete unlock, as a transition
    system over the store operations of all replicas. */
module StatsLock {
  import opened Common

  type VideoId = nat
  type Token = nat

  datatype Lock = Lock(token: Token, expiresAt: int)
  datatype Config = Config(cacheTtlMs: Ttl, lockTtlMs: Ttl)

  /** Where a fetch stands. */
  datatype Phase = Checking | Locking | Waiting | Computing | Writing | Releasing

  /** A fetch under singleflight; the token and time are those of its SETNX. */
  datatype Fetch = Fetch(replica: nat, video: VideoId, phase: Phase, gotLock: bool, token: Token, acquiredAt: int)

  /** A request that has missed the cache and not yet entered singleflight. */
  datatype Request = Request(replica: nat, video: VideoId)

  /** `flights` are the running fetches of all replicas, named by the request that
      leads them; `cache` maps a video to the expiry of its cached stats; `issued`
      counts the tokens drawn. */
  datatype System = System(now: int, missed: map<nat, Request>, flights: map<nat, Fetch>,
                           locks: map<VideoId, Lock>, cache: map<VideoId, int>, issued: nat)

  const EMPTY := System(0, map[], map[], map[], map[], 0)

  predicate Cached(s: System, v: VideoId) {
    v in s.cache && s.now < s.cache[v]
  }

  predicate Locked(locks: map<VideoId, Lock>, v: VideoId, now: int) {
    v in locks && now < locks[v].expiresAt
  }

  /** SET NX with expiry: the locks after it, and whether the key was free. */
  function SetNX(locks: map<VideoId, Lock>, v: VideoId, token: Token, now: int, ttlMs: int): (map<VideoId, Lock>, bool) {
    if Locked(locks, v, now) then (locks, false) else (locks[v := Lock(token, now + ttlMs)], true)
  }

  /** The unlock script: delete the key only if it holds this token. */
  function Unlock(locks: map<VideoId, Lock>, v: VideoId, token: Token, now: int): map<VideoId, Lock> {
    if Locked(locks, v, now) && locks[v].token == token then map w | w in locks && w != v :: locks[w] else locks
  }

  /** The lock keys as the store updates them. */
  class LockStore {
    var locks: map<VideoId, Lock>

    constructor ()
      ensures locks == map[]
    {
      locks := map[];
    }

    method AcquireLock(v: VideoId, token: Token, now: int, ttlMs: int) returns (ok: bool)
      modifies this
      ensures (locks, ok) == SetNX(old(locks), v, token, now, ttlMs)
      ensures ok <==> !old(Locked(locks, v, now))
      ensures ok && ttlMs > 0 ==> Locked(locks, v, now) && locks[v].token == token
    {
      ok := !(v in locks && now < locks[v].expiresAt);
      if ok {
        locks := locks[v := Lock(token, now + ttlMs)];
      }
    }

    method ReleaseLock(v: VideoId, token: Token, now: int)
      modifies this
      ensures locks == Unlock(old(locks), v, token, now)
      ensures forall w :: old(Locked(locks, w, now)) && !(w == v && old(locks)[w].token == token) ==>
                w in locks && locks[w] == old(locks)[w]
    {
      if v in locks && now < locks[v].expiresAt && locks[v].token == token {
        locks := map w | w in locks && w != v :: locks[w];
      }
    }
  }

  /** Store operations that may fail; LostReply is a SETNX that took effect but
      whose reply was lost. */
  datatype SetNXResult = Answered | Refused | LostReply

  /** How the wait for the other holder ends; a failed cache read is a miss. */
  datatype WaitResult = Canceled | ReadFailed | ReadDone

  /** The steps of a fetch, and what came back from the stores. */
  datatype Op =
    | Exists(ok: bool)
    | Acquire(reply: SetNXResult)
    | Recheck(wait: WaitResult)
    | Compute(ok: bool)
    | Write(ok: bool)
    | Release(ok: bool)

  /** Read is the cache lookup of a request, Join its entry into singleflight. */
  datatype Action =
    | Advance(ms: nat)
    | Read(id: nat, replica: nat, video: VideoId, ok: bool)
    | Join(id: nat)
    | Do(id: nat, op: Op)
    | Crash(replica: nat)

  /** What a step of a fetch leaves: the fetch, unless it has returned, and the
      stores. */
  datatype Progress = Progress(next: Option<Fetch>, locks: map<VideoId, Lock>, cache: map<VideoId, int>, issued: nat)

  predicate Enabled(f: Fetch, op: Op) {
    match f.phase
    case Checking => op.Exists?
    case Locking => op.Acquire?
    case Waiting => op.Recheck?
    case Computing => op.Compute?
    case Writing => op.Write?
    case Releasing => op.Release?
  }

  /** A step of a fetch; one whose turn it is not changes nothing. */
  function Proceed(s: System, cfg: Config, f: Fetch, op: Op): Progress {
    var stay := Progress(Some(f), s.locks, s.cache, s.issued);
    if !Enabled(f, op) then stay
    else
      match op
      case Exists(ok) => stay.(next := if ok then Some(f.(phase := Locking)) else None)
      case Acquire(reply) =>
        var (locks, free) := SetNX(s.locks, f.video, s.issued, s.now, cfg.lockTtlMs);
        var won := Some(f.(phase := Computing, gotLock := true, token := s.issued, acquiredAt := s.now));
        var lost := Some(f.(phase := Waiting));
        Progress(if reply == Answered && free then won else lost,
                 if reply == Refused then s.locks else locks, s.cache, s.issued + 1)
      case Recheck(wait) =>
        var hit := wait == ReadDone && Cached(s, f.video);
        stay.(next := if wait == Canceled || hit then None else Some(f.(phase := Computing)))
      case Compute(ok) => stay.(next := if ok then Some(f.(phase := Writing)) else Unwind(f))
      case Write(ok) =>
        stay.(next := Unwind(f), cache := if ok then s.cache[f.video := s.now + cfg.cacheTtlMs] else s.cache)
      case Release(ok) =>
        stay.(next := None, locks := if ok then Unlock(s.locks, f.video, f.token, s.now) else s.locks)
  }

  /** Only a fetch that got the lock has one to release. */
  function Unwind(f: Fetch): Option<Fetch> {
    if f.gotLock then Some(f.(phase := Releasing)) else None
  }

  predicate InFlight(s: System, r: nat, v: VideoId) {
    exists i :: i in s.flights && s.flights[i].replica == r && s.flights[i].video == v
  }

  function Put(flights: map<nat, Fetch>, id: nat, next: Option<Fetch>): map<nat, Fetch> {
    if next.Some? then flights[id := next.value] else flights - {id}
  }

  function Step(s: System, cfg: Config, a: Action): System {
    match a
    case Advance(ms) => s.(now := s.now + ms)
    case Read(id, r, v, ok) =>
      if (ok && Cached(s, v)) || id in s.missed || id in s.flights then s
      else s.(missed := s.missed[id := Request(r, v)])
    case Join(id) =>
      if id !in s.missed then s
      else
        // a second miss on one replica shares the running flight
        var q := s.missed[id];
        var leads := !InFlight(s, q.replica, q.video) && id !in s.flights;
        s.(missed := s.missed - {id},
           flights := if leads then s.flights[id := Fetch(q.replica, q.video, Checking, false, 0, 0)] else s.flights)
    case Do(id, op) =>
      if id !in s.flights then s
      else
        var p := Proceed(s, cfg, s.flights[id], op);
        System(s.now, s.missed, Put(s.flights, id, p.next), p.locks, p.cache, p.issued)
    case Crash(r) =>
      s.(missed := map i | i in s.missed && s.missed[i].replica != r :: s.missed[i],
         flights := map i | i in s.flights && s.flights[i].replica != r :: s.flights[i])
  }

  function Run(s: System, cfg: Config, actions: seq<Action>): System
    decreases |actions|
  {
    if actions == [] then s else Run(Step(s, cfg, actions[0]), cfg, actions[1..])
  }

  predicate Start(s: System) {
    s.flights == map[] && s.locks == map[] && s.issued == 0 && s.missed == map[]
  }

  // ----- invariants -----

  /** The fetch won the lock and has not released it. */
  predicate Holds(s: System, i: nat) {
    i in s.flights && s.flights[i].gotLock
  }

  predicate OneFlightEach(s: System) {
    forall i, j :: i in s.flights && j in s.flights && i != j ==>
      s.flights[i].replica != s.flights[j].replica || s.flights[i].video != s.flights[j].video
  }

  /** Tokens are drawn once: locks and holders only carry drawn ones, and no two
      holders the same. */
  ghost predicate TokensAreOwn(s: System) {
    && (forall v :: v in s.locks ==> s.locks[v].token < s.issued)
    && (forall i :: Holds(s, i) ==> s.flights[i].token < s.issued)
    && (forall i, j :: Holds(s, i) && Holds(s, j) && i != j ==> s.flights[i].token != s.flights[j].token)
  }

  predicate PhaseFits(f: Fetch) {
    && (f.phase in {Checking, Locking, Waiting} ==> !f.gotLock)
    && (f.phase == Releasing ==> f.gotLock)
  }

  predicate PhasesFit(s: System) {
    forall i :: i in s.flights ==> PhaseFits(s.flights[i])
  }

  /** A holder's lock is in place until its TTL has passed. */
  predicate LockInPlace(s: System, cfg: Config, i: nat)
    requires Holds(s, i)
  {
    var f := s.flights[i];
    f.acquiredAt + cfg.lockTtlMs <= s.now ||
    (f.video in s.locks && s.locks[f.video] == Lock(f.token, f.acquiredAt + cfg.lockTtlMs))
  }

  ghost predicate LocksInPlace(s: System, cfg: Config) {
    forall i :: Holds(s, i) ==> LockInPlace(s, cfg, i)
  }

  /** Of two holders of one video, one acquired only after the other's TTL. */
  ghost predicate HoldersApart(s: System, cfg: Config) {
    forall i, j :: Holds(s, i) && Holds(s, j) && i != j && s.flights[i].video == s.flights[j].video ==>
      var (a, b) := (s.flights[i].acquiredAt, s.flights[j].acquiredAt);
      a + cfg.lockTtlMs <= b || b + cfg.lockTtlMs <= a
  }

  /** A request waits for singleflight or leads a fetch, not both. */
  predicate IdsApart(s: System) {
    forall i :: i in s.missed ==> i !in s.flights
  }

  ghost predicate Inv(s: System, cfg: Config) {
    IdsApart(s) && OneFlightEach(s) && PhasesFit(s) && TokensAreOwn(s) && LocksInPlace(s, cfg) && HoldersApart(s, cfg)
  }

  /** A fetch keeps its replica and video.  Once it holds the lock it keeps token
      and time; it gets it only from a SETNX that found the key free. */
  lemma ProceedKeeps(s: System, cfg: Config, f: Fetch, op: Op)
    requires PhaseFits(f)
    ensures var p := Proceed(s, cfg, f, op);
            && p.issued >= s.issued
            && (p.next.Some? ==>
                  var g := p.next.value;
                  && PhaseFits(g) && g.replica == f.replica && g.video == f.video
                  && (f.gotLock ==> g.gotLock && g.token == f.token && g.acquiredAt == f.acquiredAt)
                  && (g.gotLock && !f.gotLock ==>
                        && op == Acquire(Answered) && g.token == s.issued < p.issued && g.acquiredAt == s.now
                        && !Locked(s.locks, f.video, s.now)
                        && p.locks == s.locks[f.video := Lock(s.issued, s.now + cfg.lockTtlMs)]))
  {}

  /** What it does to the lock keys: SETNX on an expired one, with a new token, or
      the release of its own. */
  lemma ProceedLocks(s: System, cfg: Config, f: Fetch, op: Op, v: VideoId)
    requires PhaseFits(f)
    ensures var p := Proceed(s, cfg, f, op);
            && (v in p.locks ==> (v in s.locks && p.locks[v] == s.locks[v]) || p.locks[v].token == s.issued < p.issued)
            && (v in s.locks && s.now < s.locks[v].expiresAt ==>
                  || (v in p.locks && p.locks[v] == s.locks[v])
                  || (f.gotLock && p.next.None? && f.token == s.locks[v].token))
  {}

  lemma OneFlightStep(s: System, cfg: Config, a: Action)
    requires OneFlightEach(s) && PhasesFit(s)
    ensures OneFlightEach(Step(s, cfg, a))
  {
    if a.Do? && a.id in s.flights {
      ProceedKeeps(s, cfg, s.flights[a.id], a.op);
    }
  }

  lemma IdsApartStep(s: System, cfg: Config, a: Action)
    requires IdsApart(s)
    ensures IdsApart(Step(s, cfg, a))
  {}

  lemma PhasesStep(s: System, cfg: Config, a: Action)
    requires PhasesFit(s)
    ensures PhasesFit(Step(s, cfg, a))
  {
    if a.Do? && a.id in s.flights {
      ProceedKeeps(s, cfg, s.flights[a.id], a.op);
    }
  }

  /** A holder stays as it acquired, and a new one has just set the free lock. */
  lemma HolderStep(s: System, cfg: Config, a: Action, i: nat)
    requires PhasesFit(s) && Holds(Step(s, cfg, a), i)
    ensures var t := Step(s, cfg, a);
            var f := t.flights[i];
            if Holds(s, i) then
              f.token == s.flights[i].token && f.video == s.flights[i].video && f.acquiredAt == s.flights[i].acquiredAt
            else
              && a == Do(i, Acquire(Answered)) && f.token == s.issued && f.acquiredAt == s.now
              && !Locked(s.locks, f.video, s.now) && t.issued > s.issued && t.now == s.now
              && t.locks == s.locks[f.video := Lock(s.issued, s.now + cfg.lockTtlMs)]
              && forall j :: j != i ==> (Holds(t, j) <==> Holds(s, j))
  {
    if a.Do? && a.id in s.flights {
      ProceedKeeps(s, cfg, s.flights[a.id], a.op);
    }
  }

  /** A lock changes only by a SETNX that finds it expired, with a new token, or
      by the release of the holder whose token it carries. */
  lemma LockStep(s: System, cfg: Config, a: Action, v: VideoId)
    requires PhasesFit(s)
    ensures var t := Step(s, cfg, a);
            && t.now >= s.now && t.issued >= s.issued
            && (v in t.locks ==> (v in s.locks && t.locks[v] == s.locks[v]) || (t.locks[v].token == s.issued < t.issued))
            && (v in s.locks && t.now < s.locks[v].expiresAt ==>
                  || (v in t.locks && t.locks[v] == s.locks[v])
                  || (a.Do? && Holds(s, a.id) && s.flights[a.id].token == s.locks[v].token && a.id !in t.flights))
  {
    if a.Do? && a.id in s.flights {
      ProceedKeeps(s, cfg, s.flights[a.id], a.op);
      ProceedLocks(s, cfg, s.flights[a.id], a.op, v);
    }
  }

  lemma TokensStep(s: System, cfg: Config, a: Action)
    requires PhasesFit(s) && TokensAreOwn(s)
    ensures TokensAreOwn(Step(s, cfg, a))
  {
    var t := Step(s, cfg, a);
    forall v | v in t.locks
      ensures t.locks[v].token < t.issued
    {
      LockStep(s, cfg, a, v);
    }
    forall i | Holds(t, i)
      ensures t.flights[i].token < t.issued
    {
      HolderStep(s, cfg, a, i);
      LockStep(s, cfg, a, 0);
    }
    forall i, j | Holds(t, i) && Holds(t, j) && i != j
      ensures t.flights[i].token != t.flights[j].token
    {
      HolderStep(s, cfg, a, i);
      HolderStep(s, cfg, a, j);
    }
  }

  lemma LocksInPlaceStep(s: System, cfg: Config, a: Action)
    requires PhasesFit(s) && TokensAreOwn(s) && LocksInPlace(s, cfg)
    ensures LocksInPlace(Step(s, cfg, a), cfg)
  {
    var t := Step(s, cfg, a);
    forall i | Holds(t, i)
      ensures LockInPlace(t, cfg, i)
    {
      HolderStep(s, cfg, a, i);
      LockStep(s, cfg, a, t.flights[i].video);
      if Holds(s, i) {
        assert LockInPlace(s, cfg, i);
      }
    }
  }

  lemma HoldersApartStep(s: System, cfg: Config, a: Action)
    requires PhasesFit(s) && LocksInPlace(s, cfg) && HoldersApart(s, cfg)
    ensures HoldersApart(Step(s, cfg, a), cfg)
  {
    var t := Step(s, cfg, a);
    forall i, j | Holds(t, i) && Holds(t, j) && i != j && t.flights[i].video == t.flights[j].video
      ensures t.flights[i].acquiredAt + cfg.lockTtlMs <= t.flights[j].acquiredAt
           || t.flights[j].acquiredAt + cfg.lockTtlMs <= t.flights[i].acquiredAt
    {
      HolderStep(s, cfg, a, i);
      HolderStep(s, cfg, a, j);
      if !Holds(s, i) {
        assert LockInPlace(s, cfg, j);
      } else if !Holds(s, j) {
        assert LockInPlace(s, cfg, i);
      }
    }
  }

  lemma InvStep(s: System, cfg: Config, a: Action)
    requires Inv(s, cfg)
    ensures Inv(Step(s, cfg, a), cfg)
  {
    IdsApartStep(s, cfg, a);
    OneFlightStep(s, cfg, a);
    PhasesStep(s, cfg, a);
    TokensStep(s, cfg, a);
    LocksInPlaceStep(s, cfg, a);
    HoldersApartStep(s, cfg, a);
  }

  lemma {:induction false} InvRun(s: System, cfg: Config, actions: seq<Action>)
    requires Inv(s, cfg)
    ensures Inv(Run(s, cfg, actions), cfg)
    decreases |actions|
  {
    if actions != [] {
      InvStep(s, cfg, actions[0]);
      InvRun(Step(s, cfg, actions[0]), cfg, actions[1..]);
    }
  }

  lemma Reachable(s0: System, cfg: Config, actions: seq<Action>)
    requires Start(s0)
    ensures Inv(Run(s0, cfg, actions), cfg)
  {
    InvRun(s0, cfg, actions);
  }

  // ----- main results -----

  predicate Unexpired(s: System, cfg: Config, i: nat)
    requires Holds(s, i)
  {
    s.now < s.flights[i].acquiredAt + cfg.lockTtlMs
  }

  /** In every reachable state at most one fetch per video holds an unexpired
      lock, and two unreleased holders coexist only if the earlier one's TTL had
      passed when the later one acquired. */
  lemma LockExcludes(s0: System, cfg: Config, actions: seq<Action>, i: nat, j: nat)
    requires Start(s0)
    requires var s := Run(s0, cfg, actions);
             Holds(s, i) && Holds(s, j) && i != j && s.flights[i].video == s.flights[j].video
             && s.flights[i].acquiredAt <= s.flights[j].acquiredAt
    ensures var s := Run(s0, cfg, actions);
            s.flights[i].acquiredAt + cfg.lockTtlMs <= s.flights[j].acquiredAt
            && !(Unexpired(s, cfg, i) && Unexpired(s, cfg, j))
  {
    Reachable(s0, cfg, actions);
    var s := Run(s0, cfg, actions);
    assert LockInPlace(s, cfg, i) && LockInPlace(s, cfg, j);
  }

  /** No step of anyone, in particular no release, takes an unexpired lock away
      from a fetch that holds it: it ends with its own release, its TTL, or the
      crash of its replica. */
  lemma OnlyTheHolderUnlocks(s0: System, cfg: Config, actions: seq<Action>, a: Action, i: nat)
    requires Start(s0)
    requires var s := Run(s0, cfg, actions); Holds(s, i) && Unexpired(s, cfg, i)
    requires var t := Step(Run(s0, cfg, actions), cfg, a); Holds(t, i) && Unexpired(t, cfg, i)
    ensures var (s, t) := (Run(s0, cfg, actions), Step(Run(s0, cfg, actions), cfg, a));
            var v := s.flights[i].video;
            Locked(s.locks, v, s.now) && v in t.locks && t.locks[v] == s.locks[v] && t.locks[v].token == s.flights[i].token
  {
    Reachable(s0, cfg, actions);
    var s := Run(s0, cfg, actions);
    assert LockInPlace(s, cfg, i);
    LocksInPlaceStep(s, cfg, a);
    assert LockInPlace(Step(s, cfg, a), cfg, i);
  }

  /** When a fetch returns: the video does not exist, the wait is canceled or ends
      with a hit, the query fails or its result is written without the lock; with
      the lock only after its release, whatever failed before. */
  lemma ReturnsIff(s: System, cfg: Config, f: Fetch, op: Op)
    requires PhaseFits(f) && Enabled(f, op)
    ensures var p := Proceed(s, cfg, f, op);
            && (p.next.None? <==>
                  || op == Exists(false)
                  || op == Recheck(Canceled) || (op == Recheck(ReadDone) && Cached(s, f.video))
                  || (!f.gotLock && (op == Compute(false) || op.Write?))
                  || op.Release?)
            && (f.gotLock && (op == Compute(false) || op.Write?) ==> p.next == Some(f.(phase := Releasing)))
            && (p.cache != s.cache ==> op == Write(true))
  {}

  /** A SETNX that reaches the store takes a free key whether or not its reply
      arrives; only with the reply does the fetch know and query, else it waits. */
  lemma AcquireMeans(s: System, cfg: Config, f: Fetch, reply: SetNXResult)
    requires f.phase == Locking
    ensures var p := Proceed(s, cfg, f, Acquire(reply));
            var free := !Locked(s.locks, f.video, s.now);
            && p.locks == (if reply != Refused && free then s.locks[f.video := Lock(s.issued, s.now + cfg.lockTtlMs)] else s.locks)
            && p.next.Some? && (p.next.value.phase == Computing <==> reply == Answered && free)
            && (p.next.value.phase != Computing ==> p.next == Some(f.(phase := Waiting)))
  {}

  /** In every reachable state: a fetch that holds the lock leaves the system only
      by its own release or the crash of its replica, and once that release has
      gone through its token is in no live lock. */
  lemma HolderReleasesFirst(s0: System, cfg: Config, actions: seq<Action>, a: Action, i: nat)
    requires Start(s0) && Holds(Run(s0, cfg, actions), i)
    requires i !in Step(Run(s0, cfg, actions), cfg, a).flights && !a.Crash?
    ensures var (s, t) := (Run(s0, cfg, actions), Step(Run(s0, cfg, actions), cfg, a));
            var f := s.flights[i];
            && a.Do? && a.id == i && a.op.Release?
            && (a.op.ok ==> !(Locked(t.locks, f.video, t.now) && t.locks[f.video].token == f.token))
  {
    Reachable(s0, cfg, actions);
    var s := Run(s0, cfg, actions);
    if a.Do? && a.id == i && Enabled(s.flights[i], a.op) {
      ReturnsIff(s, cfg, s.flights[i], a.op);
    }
  }

  predicate LocksAreShort(s: System, cfg: Config) {
    forall v :: v in s.locks ==> s.locks[v].expiresAt <= s.now + cfg.lockTtlMs
  }

  lemma {:induction false} LocksStayShort(s: System, cfg: Config, actions: seq<Action>)
    requires LocksAreShort(s, cfg)
    ensures LocksAreShort(Run(s, cfg, actions), cfg)
    decreases |actions|
  {
    if actions != [] {
      LocksStayShort(Step(s, cfg, actions[0]), cfg, actions[1..]);
    }
  }

  /** A crash takes the fetches and requests of its replica and nothing else; the
      locks they held stay, but after the lock's lifetime every lock is free. */
  lemma CrashStallsNoLongerThanTheTtl(s0: System, cfg: Config, actions: seq<Action>, r: nat, ms: nat, v: VideoId)
    requires Start(s0) && ms >= cfg.lockTtlMs
    ensures var s := Run(s0, cfg, actions);
            var t := Step(s, cfg, Crash(r));
            var u := Step(t, cfg, Advance(ms));
            && (forall i :: i in t.flights <==> i in s.flights && s.flights[i].replica != r)
            && (forall i :: i in t.missed <==> i in s.missed && s.missed[i].replica != r)
            && (forall i :: i in t.flights ==> t.flights[i] == s.flights[i])
            && t.locks == s.locks && t.cache == s.cache
            && u.now == s.now + ms && !Locked(u.locks, v, u.now)
  {
    LocksStayShort(s0, cfg, actions);
  }

  function FlightsOn(s: System, v: VideoId): set<nat> {
    set i | i in s.flights && s.flights[i].video == v
  }

  lemma {:induction false} InjectiveImage(s: System, ids: set<nat>, replicas: set<nat>)
    requires forall i :: i in ids ==> i in s.flights && s.flights[i].replica in replicas
    requires forall i, j :: i in ids && j in ids && i != j ==> s.flights[i].replica != s.flights[j].replica
    ensures |ids| <= |replicas|
  {
    if ids != {} {
      var i :| i in ids;
      InjectiveImage(s, ids - {i}, replicas - {s.flights[i].replica});
    }
  }

  /** However many requests miss the cache at once, the fetches running for one
      video, and so the concurrent backend queries, are at most one per replica. */
  lemma AtMostOneFetchPerReplica(s0: System, cfg: Config, actions: seq<Action>, v: VideoId, replicas: set<nat>)
    requires Start(s0)
    requires forall i :: i in Run(s0, cfg, actions).flights ==> Run(s0, cfg, actions).flights[i].replica in replicas
    ensures |FlightsOn(Run(s0, cfg, actions), v)| <= |replicas|
  {
    Reachable(s0, cfg, actions);
    InjectiveImage(Run(s0, cfg, actions), FlightsOn(Run(s0, cfg, actions), v), replicas);
  }

  // ----- one query per cache window -----

  /** The fetch goes to the backends in this step. */
  predicate StartsQuery(s: System, t: System, i: nat) {
    i in t.flights && t.flights[i].phase == Computing && (i in s.flights ==> s.flights[i].phase != Computing)
  }

  /** The requests that may still query for v: those that missed the cache and
      those whose fetch has not come that far. */
  function MissedFor(s: System, v: VideoId): set<nat> {
    set i | i in s.missed && s.missed[i].video == v
  }

  function EarlyFor(s: System, v: VideoId): set<nat> {
    set i | i in s.flights && s.flights[i].video == v && IsEarly(s.flights[i])
  }

  predicate IsEarly(f: Fetch) {
    f.phase.Checking? || f.phase.Locking? || f.phase.Waiting?
  }

  function Backlog(s: System, v: VideoId): nat {
    |MissedFor(s, v)| + |EarlyFor(s, v)|
  }

  predicate QueriesFor(s: System, t: System, a: Action, v: VideoId) {
    a.Do? && StartsQuery(s, t, a.id) && t.flights[a.id].video == v
  }

  function Queries(s: System, cfg: Config, actions: seq<Action>, v: VideoId): nat
    decreases |actions|
  {
    if actions == [] then 0
    else
      var t := Step(s, cfg, actions[0]);
      Queries(t, cfg, actions[1..], v) + if QueriesFor(s, t, actions[0], v) then 1 else 0
  }

  /** The stats of v are cached all along, and no request that asks for them anew
      misses for a failed lookup. */
  predicate CachedThroughout(s: System, cfg: Config, actions: seq<Action>, v: VideoId)
    decreases |actions|
  {
    actions == [] ||
    (Cached(s, v) && (actions[0].Read? && actions[0].video == v ==> actions[0].ok)
     && CachedThroughout(Step(s, cfg, actions[0]), cfg, actions[1..], v))
  }

  /** A fetch goes forward, and past its query only once. */
  lemma ProceedGoesForward(s: System, cfg: Config, f: Fetch, op: Op)
    ensures var next := Proceed(s, cfg, f, op).next;
            next.Some? ==>
              && next.value.video == f.video
              && (IsEarly(next.value) ==> IsEarly(f))
              && (next.value.phase == Computing ==> IsEarly(f) || f.phase == Computing)
  {}

  lemma FetchUsesUpItsQuery(s: System, cfg: Config, id: nat, op: Op, v: VideoId)
    ensures var t := Step(s, cfg, Do(id, op));
            && MissedFor(t, v) == MissedFor(s, v)
            && EarlyFor(t, v) <= EarlyFor(s, v)
            && (QueriesFor(s, t, Do(id, op), v) ==> id in EarlyFor(s, v) - EarlyFor(t, v))
  {
    if id in s.flights {
      ProceedGoesForward(s, cfg, s.flights[id], op);
    }
  }

  lemma JoinMovesAtMostOne(s: System, cfg: Config, id: nat, v: VideoId)
    ensures var t := Step(s, cfg, Join(id));
            && MissedFor(t, v) == MissedFor(s, v) - {id}
            && EarlyFor(t, v) <= EarlyFor(s, v) + if id in MissedFor(s, v) then {id} else {}
  {}

  lemma OthersAddNone(s: System, cfg: Config, a: Action, v: VideoId)
    requires a.Advance? || a.Crash? || (a.Read? && (a.video == v ==> a.ok && Cached(s, v)))
    ensures var t := Step(s, cfg, a); MissedFor(t, v) <= MissedFor(s, v) && EarlyFor(t, v) <= EarlyFor(s, v)
  {}

  /** One element may move from the first set to the second, or leave the second. */
  lemma SizesAfter(m: set<nat>, e: set<nat>, m': set<nat>, e': set<nat>, id: nat, moved: bool, used: bool)
    requires m' <= (if moved then m - {id} else m) && (moved ==> id in m && !used) && (used ==> id in e)
    requires e' <= if moved then e + {id} else if used then e - {id} else e
    ensures |m'| + |e'| + (if used then 1 else 0) <= |m| + |e|
  {
    SubsetIsNotLarger(m', if moved then m - {id} else m);
    SubsetIsNotLarger(e', if moved then e + {id} else if used then e - {id} else e);
  }

  lemma BacklogStep(s: System, cfg: Config, a: Action, v: VideoId)
    requires a.Read? && a.video == v ==> a.ok && Cached(s, v)
    ensures var t := Step(s, cfg, a);
            Backlog(t, v) + (if QueriesFor(s, t, a, v) then 1 else 0) <= Backlog(s, v)
  {
    var t := Step(s, cfg, a);
    var (m, e, m', e') := (MissedFor(s, v), EarlyFor(s, v), MissedFor(t, v), EarlyFor(t, v));
    match a
    case Do(id, op) =>
      FetchUsesUpItsQuery(s, cfg, id, op, v);
      SizesAfter(m, e, m', e', id, false, QueriesFor(s, t, a, v));
    case Join(id) =>
      JoinMovesAtMostOne(s, cfg, id, v);
      SizesAfter(m, e, m', e', id, id in m, false);
    case _ =>
      OthersAddNone(s, cfg, a, v);
      SizesAfter(m, e, m', e', 0, false, false);
  }

  /** While the stats stay cached, the queries that still start are at most the
      requests that had missed before: each of them queries at most once, and
      whoever looks now is served from the cache.  So a window sees no further
      query once those have been answered. */
  lemma {:induction false} LateQueriesAreBounded(s: System, cfg: Config, actions: seq<Action>, v: VideoId)
    requires CachedThroughout(s, cfg, actions, v)
    ensures Queries(s, cfg, actions, v) + Backlog(Run(s, cfg, actions), v) <= Backlog(s, v)
    decreases |actions|
  {
    if actions != [] {
      BacklogStep(s, cfg, actions[0], v);
      LateQueriesAreBounded(Step(s, cfg, actions[0]), cfg, actions[1..], v);
    }
  }

  // ----- the converse: who missed before can still query -----

  ghost predicate CanQuery(s: System, cfg: Config, v: VideoId) {
    exists actions :: CachedThroughout(s, cfg, actions, v) && Queries(s, cfg, actions, v) > 0
  }

  lemma StepToQuery(s: System, cfg: Config, a: Action, v: VideoId)
    requires Cached(s, v) && !a.Read?
    requires CanQuery(Step(s, cfg, a), cfg, v) || (QueriesFor(s, Step(s, cfg, a), a, v))
    ensures CanQuery(s, cfg, v)
  {
    if QueriesFor(s, Step(s, cfg, a), a, v) {
      var actions := [a];
      assert actions[0] == a && actions[1..] == [];
      assert CachedThroughout(s, cfg, actions, v);
      assert Queries(s, cfg, actions, v) == Queries(Step(s, cfg, a), cfg, [], v) + 1;
    } else {
      var rest :| CachedThroughout(Step(s, cfg, a), cfg, rest, v) && Queries(Step(s, cfg, a), cfg, rest, v) > 0;
      var actions := [a] + rest;
      assert actions[1..] == rest;
      assert CachedThroughout(s, cfg, actions, v) && Queries(s, cfg, actions, v) > 0;
    }
  }

  /** A fetch that has not queried yet can: refused the lock, it waits, and its
      cache read fails. */
  lemma EarlyCanQuery(s: System, cfg: Config, id: nat, v: VideoId)
    requires Cached(s, v) && id in EarlyFor(s, v)
    ensures CanQuery(s, cfg, v)
    decreases match s.flights[id].phase case Checking => 2 case Locking => 1 case _ => 0
  {
    var a := match s.flights[id].phase
      case Checking => Do(id, Exists(true))
      case Locking => Do(id, Acquire(Refused))
      case _ => Do(id, Recheck(ReadFailed));
    var t := Step(s, cfg, a);
    if !s.flights[id].phase.Waiting? {
      EarlyCanQuery(t, cfg, id, v);
    }
    StepToQuery(s, cfg, a, v);
  }

  /** A request that missed and finds no fetch to join leads one. */
  lemma MissedCanQuery(s: System, cfg: Config, id: nat, v: VideoId)
    requires Inv(s, cfg) && Cached(s, v) && id in MissedFor(s, v) && !InFlight(s, s.missed[id].replica, v)
    ensures CanQuery(s, cfg, v)
  {
    EarlyCanQuery(Step(s, cfg, Join(id)), cfg, id, v);
    StepToQuery(s, cfg, Join(id), v);
  }

  /** It can wait until a fetch that is past its query has landed. */
  lemma MissedCanWait(s: System, cfg: Config, id: nat, j: nat, v: VideoId)
    requires Inv(s, cfg) && Cached(s, v) && id in MissedFor(s, v)
    requires j in s.flights && s.flights[j].replica == s.missed[id].replica && s.flights[j].video == v
    requires !IsEarly(s.flights[j])
    ensures CanQuery(s, cfg, v)
    decreases s.flights[j].phase != Releasing
  {
    var a := match s.flights[j].phase
      case Computing => Do(j, Compute(false))
      case Writing => Do(j, Write(false))
      case _ => Do(j, Release(false));
    var t := Step(s, cfg, a);
    InvStep(s, cfg, a);
    if j in t.flights {
      MissedCanWait(t, cfg, id, j, v);
    } else {
      MissedCanQuery(t, cfg, id, v);
    }
    StepToQuery(s, cfg, a, v);
  }

  lemma SomeoneCanQuery(s: System, cfg: Config, v: VideoId)
    requires Inv(s, cfg) && Cached(s, v) && Backlog(s, v) > 0
    ensures CanQuery(s, cfg, v)
  {
    if EarlyFor(s, v) != {} {
      var id :| id in EarlyFor(s, v);
      EarlyCanQuery(s, cfg, id, v);
    } else {
      var id :| id in MissedFor(s, v);
      if InFlight(s, s.missed[id].replica, v) {
        var j :| j in s.flights && s.flights[j].replica == s.missed[id].replica && s.flights[j].video == v;
        assert j !in EarlyFor(s, v);
        MissedCanWait(s, cfg, id, j, v);
      } else {
        MissedCanQuery(s, cfg, id, v);
      }
    }
  }

  /** However the run goes on, v is not queried while its stats stay cached. */
  ghost predicate NoLateQuery(s: System, cfg: Config, v: VideoId) {
    forall later :: CachedThroughout(s, cfg, later, v) ==> Queries(s, cfg, later, v) == 0
  }

  /** From a reachable state with fresh stats cached, that is so if and only if no
      request that missed is left. */
  lemma NoLateQueryIff(s0: System, cfg: Config, actions: seq<Action>, v: VideoId)
    requires Start(s0) && Cached(Run(s0, cfg, actions), v)
    ensures NoLateQuery(Run(s0, cfg, actions), cfg, v) <==> Backlog(Run(s0, cfg, actions), v) == 0
  {
    var s := Run(s0, cfg, actions);
    Reachable(s0, cfg, actions);
    if Backlog(s, v) == 0 {
      forall later | CachedThroughout(s, cfg, later, v)
        ensures Queries(s, cfg, later, v) == 0
      {
        LateQueriesAreBounded(s, cfg, later, v);
      }
    } else {
      SomeoneCanQuery(s, cfg, v);
    }
  }

  // ----- two queries at once -----

  /** The query is under way, or its result is not in the cache yet. */
  predicate Running(s: System, i: nat, v: VideoId) {
    i in s.flights && (s.flights[i].phase == Computing || s.flights[i].phase == Writing) && s.flights[i].video == v
  }

  predicate AtMostOneRuns(s: System, v: VideoId) {
    forall i, j :: i in s.flights && j in s.flights && Running(s, i, v) && Running(s, j, v) ==> i == j
  }

  /** The fetch waited for the lock's holder and is not served from the cache. */
  predicate WaitedInVain(s: System, a: Action, v: VideoId) {
    && a.Do? && a.op.Recheck? && a.id in s.flights && s.flights[a.id].video == v && s.flights[a.id].phase == Waiting
    && a.op.wait != Canceled && !(a.op.wait == ReadDone && Cached(s, v))
  }

  /** The fetch wins the lock, and whoever is querying got by without the lock or
      has outlived it. */
  ghost predicate WinsOverStale(s: System, cfg: Config, a: Action, v: VideoId) {
    && a.Do? && a.op == Acquire(Answered) && a.id in s.flights && s.flights[a.id].video == v
    && s.flights[a.id].phase == Locking && !Locked(s.locks, v, s.now)
    && forall j :: Running(s, j, v) && Holds(s, j) ==> !Unexpired(s, cfg, j)
  }

  ghost predicate StartsSecond(s: System, cfg: Config, a: Action, v: VideoId) {
    (WaitedInVain(s, a, v) || WinsOverStale(s, cfg, a, v)) && exists j :: j in s.flights && Running(s, j, v)
  }

  /** A step starts a query of v in exactly these two ways; that a winner finds no
      querying fetch with a live lock is what the lock is for. */
  lemma QueryStartsIff(s: System, cfg: Config, a: Action, v: VideoId)
    requires PhasesFit(s) && LocksInPlace(s, cfg)
    ensures QueriesFor(s, Step(s, cfg, a), a, v) <==> WaitedInVain(s, a, v) || WinsOverStale(s, cfg, a, v)
  {
    forall j | Running(s, j, v) && Holds(s, j) && !Locked(s.locks, v, s.now)
      ensures !Unexpired(s, cfg, j)
    {
      assert LockInPlace(s, cfg, j);
    }
    if a.Do? && a.id in s.flights {
      ProceedKeeps(s, cfg, s.flights[a.id], a.op);
    }
  }

  /** Only the fetch that takes the step can become a running one. */
  lemma RunningStep(s: System, cfg: Config, a: Action, i: nat, v: VideoId)
    ensures var t := Step(s, cfg, a);
            && (Running(t, i, v) ==> Running(s, i, v) || (a.Do? && a.id == i && QueriesFor(s, t, a, v)))
            && (QueriesFor(s, t, a, v) ==> !Running(s, a.id, v) && (i != a.id ==> (Running(t, i, v) <==> Running(s, i, v))))
  {
    if a.Do? && a.id in s.flights {
      ProceedGoesForward(s, cfg, s.flights[a.id], a.op);
    }
  }

  lemma SecondStepIff(s: System, cfg: Config, a: Action, v: VideoId)
    requires PhasesFit(s) && LocksInPlace(s, cfg) && AtMostOneRuns(s, v)
    ensures AtMostOneRuns(Step(s, cfg, a), v) <==> !StartsSecond(s, cfg, a, v)
  {
    var t := Step(s, cfg, a);
    QueryStartsIff(s, cfg, a, v);
    if StartsSecond(s, cfg, a, v) {
      var j :| j in s.flights && Running(s, j, v);
      RunningStep(s, cfg, a, j, v);
      assert Running(t, j, v) && Running(t, a.id, v);
    } else {
      forall i, j | i in t.flights && j in t.flights && Running(t, i, v) && Running(t, j, v)
        ensures i == j
      {
        RunningStep(s, cfg, a, i, v);
        RunningStep(s, cfg, a, j, v);
      }
    }
  }

  /** In every state of the run at most one query of v is running, its write
      included. */
  predicate NeverTwoRun(s: System, cfg: Config, actions: seq<Action>, v: VideoId)
    decreases |actions|
  {
    AtMostOneRuns(s, v) && (actions == [] || NeverTwoRun(Step(s, cfg, actions[0]), cfg, actions[1..], v))
  }

  ghost predicate NoneStartsSecond(s: System, cfg: Config, actions: seq<Action>, v: VideoId)
    decreases |actions|
  {
    actions == [] ||
    (!StartsSecond(s, cfg, actions[0], v) && NoneStartsSecond(Step(s, cfg, actions[0]), cfg, actions[1..], v))
  }

  lemma {:induction false} NeverTwoFrom(s: System, cfg: Config, actions: seq<Action>, v: VideoId)
    requires Inv(s, cfg) && AtMostOneRuns(s, v)
    ensures NeverTwoRun(s, cfg, actions, v) <==> NoneStartsSecond(s, cfg, actions, v)
    decreases |actions|
  {
    if actions != [] {
      var t := Step(s, cfg, actions[0]);
      InvStep(s, cfg, actions[0]);
      SecondStepIff(s, cfg, actions[0], v);
      if AtMostOneRuns(t, v) {
        NeverTwoFrom(t, cfg, actions[1..], v);
      }
    }
  }

  /** Over a whole run of all replicas, two queries of one video never run at once
      if and only if, while one runs, no fetch waits in vain and none wins a lock
      that the running one lacks or has outlived. */
  lemma NeverTwoRunIff(s0: System, cfg: Config, actions: seq<Action>, v: VideoId)
    requires Start(s0)
    ensures NeverTwoRun(s0, cfg, actions, v) <==> NoneStartsSecond(s0, cfg, actions, v)
  {
    NeverTwoFrom(s0, cfg, actions, v);
  }

  // ----- counting the queries of a window -----

  /** The stats of v are cached or on their way into the cache. */
  predicate Busy(s: System, v: VideoId) {
    Cached(s, v) || exists i :: i in s.flights && Running(s, i, v)
  }

  /** The action starts a query although that is so. */
  ghost predicate StartsExtra(s: System, cfg: Config, a: Action, v: VideoId) {
    (WaitedInVain(s, a, v) || WinsOverStale(s, cfg, a, v)) && Busy(s, v)
  }

  ghost predicate NoneStartsExtra(s: System, cfg: Config, actions: seq<Action>, v: VideoId)
    decreases |actions|
  {
    actions == [] ||
    (!StartsExtra(s, cfg, actions[0], v) && NoneStartsExtra(Step(s, cfg, actions[0]), cfg, actions[1..], v))
  }

  /** The action keeps a running query of v from reaching the cache: its compute or
      write fails, or its replica crashes. */
  predicate Interrupts(s: System, a: Action, v: VideoId) {
    match a
    case Do(id, Compute(ok)) => Running(s, id, v) && s.flights[id].phase == Computing && !ok
    case Do(id, Write(ok)) => Running(s, id, v) && s.flights[id].phase == Writing && !ok
    case Crash(r) => exists i :: i in s.flights && Running(s, i, v) && s.flights[i].replica == r
    case _ => false
  }

  /** The interruptions before the stats are cached. */
  function Interruptions(s: System, cfg: Config, actions: seq<Action>, v: VideoId): nat
    decreases |actions|
  {
    if actions == [] then 0
    else
      Interruptions(Step(s, cfg, actions[0]), cfg, actions[1..], v) +
      if Interrupts(s, actions[0], v) && !Cached(s, v) then 1 else 0
  }

  /** The run stays within one cache window: once cached, the stats do not expire. */
  predicate OneWindow(s: System, cfg: Config, actions: seq<Action>, v: VideoId)
    decreases |actions|
  {
    actions == [] ||
    ((Cached(s, v) ==> Cached(Step(s, cfg, actions[0]), v)) && OneWindow(Step(s, cfg, actions[0]), cfg, actions[1..], v))
  }

  /** A running query that is not interrupted runs on or is cached. */
  lemma RunsOn(s: System, cfg: Config, a: Action, i: nat, v: VideoId)
    requires Running(s, i, v) && !Interrupts(s, a, v)
    ensures var t := Step(s, cfg, a); Running(t, i, v) || Cached(t, v)
  {}

  /** Only the write of a running query fills the cache. */
  lemma OnlyAQueryFills(s: System, cfg: Config, a: Action, v: VideoId)
    requires !Cached(s, v) && Cached(Step(s, cfg, a), v)
    ensures a.Do? && Running(s, a.id, v)
  {}

  lemma BusyStep(s: System, cfg: Config, a: Action, v: VideoId)
    requires PhasesFit(s) && LocksInPlace(s, cfg)
    requires var t := Step(s, cfg, a); Cached(s, v) ==> Cached(t, v)
    ensures var t := Step(s, cfg, a);
            var starts := QueriesFor(s, t, a, v);
            && (Busy(t, v) ==> Busy(s, v) || starts)
            && (Busy(s, v) || starts ==> Busy(t, v) || (Interrupts(s, a, v) && !Cached(s, v)))
            && (StartsExtra(s, cfg, a, v) <==> starts && Busy(s, v))
  {
    var t := Step(s, cfg, a);
    QueryStartsIff(s, cfg, a, v);
    if Cached(t, v) && !Cached(s, v) {
      OnlyAQueryFills(s, cfg, a, v);
    }
    if i :| i in t.flights && Running(t, i, v) {
      RunningStep(s, cfg, a, i, v);
    }
    if QueriesFor(s, t, a, v) {
      assert Running(t, a.id, v);
    } else if i :| i in s.flights && Running(s, i, v) && !Interrupts(s, a, v) {
      RunsOn(s, cfg, a, i, v);
    }
  }

  lemma {:induction false} WindowFrom(s: System, cfg: Config, actions: seq<Action>, v: VideoId)
    requires Inv(s, cfg) && OneWindow(s, cfg, actions, v)
    ensures var count := Queries(s, cfg, actions, v) + if Busy(s, v) then 1 else 0;
            && (NoneStartsExtra(s, cfg, actions, v) ==> count <= 1 + Interruptions(s, cfg, actions, v))
            && (Interruptions(s, cfg, actions, v) == 0 ==> (count <= 1 <==> NoneStartsExtra(s, cfg, actions, v)))
    decreases |actions|
  {
    if actions != [] {
      InvStep(s, cfg, actions[0]);
      BusyStep(s, cfg, actions[0], v);
      WindowFrom(Step(s, cfg, actions[0]), cfg, actions[1..], v);
    }
  }

  /** One query per cache window, counted over every stretch of every run of all
      replicas that begins with nothing cached or on its way and stays within one
      window.  If no compute or write is interrupted before the stats are cached, v
      is queried at most once if and only if no fetch waits in vain, and none wins
      the lock, while the stats are cached or on their way into the cache. */
  lemma OneQueryPerWindowIff(s0: System, cfg: Config, before: seq<Action>, actions: seq<Action>, v: VideoId)
    requires Start(s0) && !Busy(Run(s0, cfg, before), v) && OneWindow(Run(s0, cfg, before), cfg, actions, v)
    requires Interruptions(Run(s0, cfg, before), cfg, actions, v) == 0
    ensures Queries(Run(s0, cfg, before), cfg, actions, v) <= 1 <==> NoneStartsExtra(Run(s0, cfg, before), cfg, actions, v)
  {
    Reachable(s0, cfg, before);
    WindowFrom(Run(s0, cfg, before), cfg, actions, v);
  }

  /** And each interruption costs at most one query more. */
  lemma InterruptionsCostOneEach(s0: System, cfg: Config, before: seq<Action>, actions: seq<Action>, v: VideoId)
    requires Start(s0) && !Busy(Run(s0, cfg, before), v) && OneWindow(Run(s0, cfg, before), cfg, actions, v)
    requires NoneStartsExtra(Run(s0, cfg, before), cfg, actions, v)
    ensures Queries(Run(s0, cfg, before), cfg, actions, v) <= 1 + Interruptions(Run(s0, cfg, before), cfg, actions, v)
  {
    Reachable(s0, cfg, before);
    WindowFrom(Run(s0, cfg, before), cfg, actions, v);
  }

  // ----- three runs with a query too many -----

  lemma {:induction false} RunConcat(s: System, cfg: Config, a: seq<Action>, b: seq<Action>)
    ensures Run(s, cfg, a + b) == Run(Run(s, cfg, a), cfg, b)
    decreases |a|
  {
    if a == [] {
      assert a + b == b;
    } else {
      assert (a + b)[1..] == a[1..] + b;
      RunConcat(Step(s, cfg, a[0]), cfg, a[1..], b);
    }
  }

  lemma RunOne(s: System, cfg: Config, a: Action)
    ensures Run(s, cfg, [a]) == Step(s, cfg, a)
  {}

  lemma RunThree(s: System, cfg: Config, a: Action, b: Action, c: Action)
    ensures Run(s, cfg, [a, b, c]) == Step(Step(Step(s, cfg, a), cfg, b), cfg, c)
  {
    assert [a, b, c] == [a] + [b] + [c];
    RunConcat(s, cfg, [a] + [b], [c]);
    RunConcat(s, cfg, [a], [b]);
    RunOne(s, cfg, a);
    RunOne(Step(s, cfg, a), cfg, b);
    RunOne(Step(Step(s, cfg, a), cfg, b), cfg, c);
  }

  /** A request that missed leads a fetch as far as the lock. */
  function Asking(id: nat): seq<Action> {
    [Join(id), Do(id, Exists(true)), Do(id, Acquire(Answered))]
  }

  function Answering(id: nat): seq<Action> {
    [Do(id, Compute(true)), Do(id, Write(true)), Do(id, Release(true))]
  }

  predicate CanLead(s: System, id: nat) {
    id in s.missed && id !in s.flights && !InFlight(s, s.missed[id].replica, s.missed[id].video)
  }

  lemma AskingIs(s: System, cfg: Config, id: nat)
    requires CanLead(s, id)
    ensures var (r, v) := (s.missed[id].replica, s.missed[id].video);
            Run(s, cfg, Asking(id)) ==
            if Locked(s.locks, v, s.now)
            then s.(missed := s.missed - {id}, flights := s.flights[id := Fetch(r, v, Waiting, false, 0, 0)],
                    issued := s.issued + 1)
            else s.(missed := s.missed - {id}, flights := s.flights[id := Fetch(r, v, Computing, true, s.issued, s.now)],
                    locks := s.locks[v := Lock(s.issued, s.now + cfg.lockTtlMs)], issued := s.issued + 1)
  {
    RunThree(s, cfg, Join(id), Do(id, Exists(true)), Do(id, Acquire(Answered)));
    var f := Fetch(s.missed[id].replica, s.missed[id].video, Checking, false, 0, 0);
    var s1 := s.(missed := s.missed - {id}, flights := s.flights[id := f]);
    assert Step(s, cfg, Join(id)) == s1;
    var s2 := s1.(flights := s.flights[id := f.(phase := Locking)]);
    assert Step(s1, cfg, Do(id, Exists(true))) == s2;
  }

  lemma AnsweringIs(s: System, cfg: Config, id: nat)
    requires id in s.flights && s.flights[id].phase == Computing && s.flights[id].gotLock
    requires var f := s.flights[id]; Locked(s.locks, f.video, s.now) && s.locks[f.video].token == f.token
    ensures var v := s.flights[id].video;
            Run(s, cfg, Answering(id)) ==
            s.(flights := s.flights - {id}, cache := s.cache[v := s.now + cfg.cacheTtlMs],
               locks := Unlock(s.locks, v, s.locks[v].token, s.now))
  {
    RunThree(s, cfg, Do(id, Compute(true)), Do(id, Write(true)), Do(id, Release(true)));
    var f := s.flights[id];
    var s1 := s.(flights := s.flights[id := f.(phase := Writing)]);
    assert Step(s, cfg, Do(id, Compute(true))) == s1;
    var s2 := s.(flights := s.flights[id := f.(phase := Releasing)], cache := s.cache[f.video := s.now + cfg.cacheTtlMs]);
    assert Step(s1, cfg, Do(id, Write(true))) == s2;
  }

  lemma TwoMisses(cfg: Config, v: VideoId, r: nat)
    ensures Run(EMPTY, cfg, [Read(1, 1, v, true), Read(2, r, v, true)]) ==
            EMPTY.(missed := map[1 := Request(1, v), 2 := Request(r, v)])
  {
    var a, b := Read(1, 1, v, true), Read(2, r, v, true);
    assert [a, b] == [a] + [b];
    RunConcat(EMPTY, cfg, [a], [b]);
    RunOne(EMPTY, cfg, a);
    RunOne(Step(EMPTY, cfg, a), cfg, b);
  }

  lemma BothAsk(cfg: Config, v: VideoId)
    ensures Run(EMPTY, cfg, [Read(1, 1, v, true), Read(2, 2, v, true)] + Asking(1) + Asking(2)) ==
            System(0, map[], map[1 := Fetch(1, v, Computing, true, 0, 0), 2 := Fetch(2, v, Waiting, false, 0, 0)],
                   map[v := Lock(0, cfg.lockTtlMs)], map[], 2)
  {
    var misses := [Read(1, 1, v, true), Read(2, 2, v, true)];
    RunConcat(EMPTY, cfg, misses + Asking(1), Asking(2));
    RunConcat(EMPTY, cfg, misses, Asking(1));
    TwoMisses(cfg, v, 2);
    AskingIs(Run(EMPTY, cfg, misses), cfg, 1);
    AskingIs(Run(EMPTY, cfg, misses + Asking(1)), cfg, 2);
  }

  /** So the lock does not make it one query per window.  Two replicas: the one
      that finds the lock taken waits once, and queries too if the cache is
      still empty. */
  lemma TwoQueriesAtOnce(cfg: Config, v: VideoId)
    ensures var misses := [Read(1, 1, v, true), Read(2, 2, v, true)];
            var s := Run(EMPTY, cfg, misses + Asking(1) + Asking(2) + [Do(2, Recheck(ReadDone))]);
            && Start(EMPTY) && s.now == 0 && Locked(s.locks, v, 0)
            && s.flights == map[1 := Fetch(1, v, Computing, true, 0, 0), 2 := Fetch(2, v, Computing, false, 0, 0)]
  {
    var asked := [Read(1, 1, v, true), Read(2, 2, v, true)] + Asking(1) + Asking(2);
    RunConcat(EMPTY, cfg, asked, [Do(2, Recheck(ReadDone))]);
    BothAsk(cfg, v);
    RunOne(Run(EMPTY, cfg, asked), cfg, Do(2, Recheck(ReadDone)));
  }

  lemma {:induction false} QueriesConcat(s: System, cfg: Config, a: seq<Action>, b: seq<Action>, v: VideoId)
    ensures Queries(s, cfg, a + b, v) == Queries(s, cfg, a, v) + Queries(Run(s, cfg, a), cfg, b, v)
    decreases |a|
  {
    if a == [] {
      assert a + b == b;
    } else {
      assert (a + b)[1..] == a[1..] + b;
      QueriesConcat(Step(s, cfg, a[0]), cfg, a[1..], b, v);
    }
  }

  lemma QueriesOne(s: System, cfg: Config, a: Action, v: VideoId)
    ensures Queries(s, cfg, [a], v) == if QueriesFor(s, Step(s, cfg, a), a, v) then 1 else 0
  {
    assert [a][1..] == [];
  }

  /** The state in which the first fetch has its result and the second waits. */
  lemma FirstIsAboutToWrite(cfg: Config, v: VideoId)
    ensures var s := Run(EMPTY, cfg, [Read(1, 1, v, true), Read(2, 2, v, true)] + Asking(1) + Asking(2) + [Do(1, Compute(true))]);
            s == System(0, map[], map[1 := Fetch(1, v, Writing, true, 0, 0), 2 := Fetch(2, v, Waiting, false, 0, 0)],
                        map[v := Lock(0, cfg.lockTtlMs)], map[], 2)
  {
    var asked := [Read(1, 1, v, true), Read(2, 2, v, true)] + Asking(1) + Asking(2);
    RunConcat(EMPTY, cfg, asked, [Do(1, Compute(true))]);
    BothAsk(cfg, v);
    RunOne(Run(EMPTY, cfg, asked), cfg, Do(1, Compute(true)));
  }

  /** The first query of a run from empty is that of the first to win the lock. */
  lemma FirstQuery(cfg: Config, v: VideoId)
    ensures Queries(EMPTY, cfg, [Read(1, 1, v, true), Read(2, 2, v, true)] + Asking(1), v) >= 1
  {
    var start := [Read(1, 1, v, true), Read(2, 2, v, true)] + [Join(1)] + [Do(1, Exists(true))];
    var win := Do(1, Acquire(Answered));
    var misses := [Read(1, 1, v, true), Read(2, 2, v, true)];
    assert misses + Asking(1) == start + [win];
    QueriesConcat(EMPTY, cfg, start, [win], v);
    RunConcat(EMPTY, cfg, misses + [Join(1)], [Do(1, Exists(true))]);
    RunConcat(EMPTY, cfg, misses, [Join(1)]);
    TwoMisses(cfg, v, 2);
    RunOne(Run(EMPTY, cfg, misses), cfg, Join(1));
    RunOne(Run(EMPTY, cfg, misses + [Join(1)]), cfg, Do(1, Exists(true)));
    QueriesOne(Run(EMPTY, cfg, start), cfg, win, v);
  }

  /** Two replicas with nothing failing, and no two computing at once: the one that
      waited looks at the cache after the other's query and before its write. */
  lemma QueryBeforeTheWrite(cfg: Config, v: VideoId)
    ensures var computed := [Read(1, 1, v, true), Read(2, 2, v, true)] + Asking(1) + Asking(2) + [Do(1, Compute(true))];
            var s := Run(EMPTY, cfg, computed);
            && s.flights == map[1 := Fetch(1, v, Writing, true, 0, 0), 2 := Fetch(2, v, Waiting, false, 0, 0)]
            && !Cached(s, v) && Queries(EMPTY, cfg, computed + [Do(2, Recheck(ReadDone))], v) >= 2
  {
    var asking1 := [Read(1, 1, v, true), Read(2, 2, v, true)] + Asking(1);
    var computed := asking1 + Asking(2) + [Do(1, Compute(true))];
    FirstIsAboutToWrite(cfg, v);
    FirstQuery(cfg, v);
    QueriesConcat(EMPTY, cfg, asking1, Asking(2), v);
    QueriesConcat(EMPTY, cfg, asking1 + Asking(2), [Do(1, Compute(true))], v);
    QueriesConcat(EMPTY, cfg, computed, [Do(2, Recheck(ReadDone))], v);
    QueriesOne(Run(EMPTY, cfg, computed), cfg, Do(2, Recheck(ReadDone)), v);
  }

  /** One replica with nothing failing: a request that missed before the first
      fetch wrote the cache joins singleflight after that fetch has landed, wins
      the lock and queries again. */
  lemma QueryWithFreshCache(cfg: Config, v: VideoId)
    ensures var misses := [Read(1, 1, v, true), Read(2, 1, v, true)];
            var s := Run(EMPTY, cfg, misses + Asking(1) + Answering(1) + Asking(2));
            s.now == 0 && Cached(s, v) && s.flights == map[2 := Fetch(1, v, Computing, true, 1, 0)]
  {
    var misses := [Read(1, 1, v, true), Read(2, 1, v, true)];
    RunConcat(EMPTY, cfg, misses + Asking(1) + Answering(1), Asking(2));
    RunConcat(EMPTY, cfg, misses + Asking(1), Answering(1));
    RunConcat(EMPTY, cfg, misses, Asking(1));
    TwoMisses(cfg, v, 1);
    AskingIs(Run(EMPTY, cfg, misses), cfg, 1);
    AnsweringIs(Run(EMPTY, cfg, misses + Asking(1)), cfg, 1);
    AskingIs(Run(EMPTY, cfg, misses + Asking(1) + Answering(1)), cfg, 2);
  }
}
