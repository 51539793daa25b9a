/** The like pipeline end to end: the Redis script of the API, the stream, the
    worker and Postgres, as a transition system with one action per atomic store
    operation, run in any order. */
module LikePipeline {
  import opened Common
  import opened LikeRepository
  import LikeReconciler

  /** A stream entry; None is one that parseEvent rejects. */
  type Entry = Option<Event>

  /** The keys the script works on: all `user:{uid}:liked:videos` sets as pairs,
      the `video:{vid}:likes` counters (a missing key counts 0) and the stream. */
  datatype Redis = Redis(liked: set<Pair>, counter: map<VideoId, int>, stream: seq<Entry>)

  datatype Reply = Reply(liked: bool, count: int, applied: bool)

  function CounterOf(counter: map<VideoId, int>, v: VideoId): int {
    if v in counter then counter[v] else 0
  }

  function Script(rd: Redis, p: Pair, op: Op): (Redis, Reply) {
    var c := CounterOf(rd.counter, p.video);
    if op == Like then
      if p in rd.liked then (rd, Reply(true, c, false))
      else (Redis(rd.liked + {p}, rd.counter[p.video := c + 1], rd.stream + [Some(Event(p, Like))]),
            Reply(true, c + 1, true))
    else
      if p !in rd.liked then (rd, Reply(false, c, false))
      else
        var c' := Max(c - 1, 0);
        (Redis(rd.liked - {p}, rd.counter[p.video := c'], rd.stream + [Some(Event(p, Unlike))]),
         Reply(false, c', true))
  }

  /** Redis as the script updates it, with one set per user. */
  class RedisStore {
    var sets: map<UserId, set<VideoId>>
    var counter: map<VideoId, int>
    var stream: seq<Entry>

    function State(): Redis
      reads this
    {
      Redis(set u, v | u in sets && v in sets[u] :: Pair(u, v), counter, stream)
    }

    constructor ()
      ensures State() == Redis({}, map[], [])
    {
      sets, counter, stream := map[], map[], [];
    }

    /** likeScript; any op other than "like" and "unlike" is an error reply. */
    method LikeScript(user: UserId, video: VideoId, op: string) returns (r: Result<Reply>)
      modifies this
      ensures r.Ok? <==> op == "like" || op == "unlike"
      ensures r.Err? ==> State() == old(State())
      ensures r.Ok? ==> (State(), r.value) ==
                        Script(old(State()), Pair(user, video), if op == "like" then Like else Unlike)
    {
      var videos := if user in sets then sets[user] else {};
      var isMember := video in videos;
      var c := if video in counter then counter[video] else 0;
      if op == "like" {
        if isMember {
          return Ok(Reply(true, c, false));
        }
        sets := sets[user := videos + {video}];
        counter := counter[video := c + 1];
        stream := stream + [Some(Event(Pair(user, video), Like))];
        assert State().liked == old(State()).liked + {Pair(user, video)};
        return Ok(Reply(true, c + 1, true));
      }
      if op == "unlike" {
        if !isMember {
          return Ok(Reply(false, c, false));
        }
        sets := sets[user := videos - {video}];
        var newC := c - 1;
        counter := counter[video := newC];
        if newC < 0 {
          counter := counter[video := 0];
          newC := 0;
        }
        assert counter == old(counter)[video := newC];
        stream := stream + [Some(Event(Pair(user, video), Unlike))];
        assert State().liked == old(State()).liked - {Pair(user, video)};
        return Ok(Reply(false, newC, true));
      }
      r := Err("unknown op");
    }
  }

  ghost predicate CountersExact(rd: Redis) {
    forall v :: CounterOf(rd.counter, v) == |Users(rd.liked, v)|
  }

  /** The hot counter is the number of users whose set holds the video, for
      every video and after every call; the reply reports it, and an event is
      emitted exactly when a set changed. */
  lemma ScriptKeepsCountersExact(rd: Redis, p: Pair, op: Op)
    requires CountersExact(rd)
    ensures var (rd', reply) := Script(rd, p, op);
            && CountersExact(rd')
            && reply.count == |Users(rd'.liked, p.video)|
            && (reply.liked <==> op == Like) && (reply.liked <==> p in rd'.liked)
            && (reply.applied <==> rd'.liked != rd.liked)
            && rd'.stream == rd.stream + if reply.applied then [Some(Event(p, op))] else []
  {
    var (rd', reply) := Script(rd, p, op);
    if reply.applied {
      assert p in rd.liked <==> p !in rd'.liked;
    }
    forall v
      ensures CounterOf(rd'.counter, v) == |Users(rd'.liked, v)|
    {
      UsersUpdate(rd.liked, p, v);
      if reply.applied && op == Unlike && v == p.video {
        assert |Users(rd.liked, v) - {p.user}| == |Users(rd.liked, v)| - 1;
      }
    }
  }

  /** From any state of the keys, exact or not: the reply is the counter that is
      stored now, an unlike never leaves it below zero, and no other pair, counter
      or earlier entry changes. */
  lemma ScriptTouchesOnePair(rd: Redis, p: Pair, op: Op, q: Pair, v: VideoId)
    ensures var (rd', reply) := Script(rd, p, op);
            && reply.count == CounterOf(rd'.counter, p.video)
            && (reply.applied && op == Unlike ==> reply.count >= 0)
            && (!reply.applied ==> rd' == rd)
            && (q != p ==> (q in rd'.liked <==> q in rd.liked))
            && (v != p.video ==> CounterOf(rd'.counter, v) == CounterOf(rd.counter, v))
            && rd.stream <= rd'.stream
  {}

  // ----- the whole system -----

  /** `delivered` is the group's last delivered position, `outcomes` tells for
      each handled entry whether it was applied (or dropped as malformed) or
      failed, and `acking` that the newest of them awaits its XACK.  Entries
      between `|outcomes|` and `delivered` are in the worker's memory. */
  datatype System = System(redis: Redis, delivered: nat, outcomes: seq<bool>, acking: bool,
                           pending: set<nat>, pg: Pg)

  /** Process(false) is an Apply that errors; Crash restarts the worker process,
      which reads on from ">"; Inject is a malformed entry from elsewhere;
      Overwrite is any write of the reconciler. */
  datatype Action =
    | Request(pair: Pair, op: Op)
    | Inject
    | Deliver(n: nat)
    | Process(ok: bool)
    | Ack(ok: bool)
    | Crash
    | Overwrite(video: VideoId, exact: nat)

  /** One entry through the worker: the tables after it, and whether it may be
      acknowledged. */
  function Handle(pg: Pg, e: Entry, ok: bool): (Pg, bool) {
    match e
    case None => (pg, true)
    case Some(ev) => if ok && Statement(pg, ev).Ok? then (Next(pg, ev), true) else (pg, false)
  }

  predicate Consistent(s: System) {
    |s.outcomes| <= s.delivered <= |s.redis.stream| && (s.acking ==> |s.outcomes| > 0)
  }

  function Positions(lo: nat, hi: nat): (r: set<nat>)
    ensures forall i :: i in r <==> lo <= i < hi
    decreases hi - lo
  {
    if lo >= hi then {} else {lo} + Positions(lo + 1, hi)
  }

  /** An action that is not enabled leaves the system as it is. */
  function Step(s: System, a: Action): (s': System)
    requires Consistent(s)
    ensures Consistent(s')
  {
    match a
    case Request(p, op) => s.(redis := Script(s.redis, p, op).0)
    case Inject => s.(redis := s.redis.(stream := s.redis.stream + [None]))
    case Deliver(n) =>
      if s.acking || |s.outcomes| < s.delivered then s
      else
        var d := Min(s.delivered + n, |s.redis.stream|);
        s.(delivered := d, pending := s.pending + Positions(s.delivered, d))
    case Process(ok) =>
      if s.acking || |s.outcomes| == s.delivered then s
      else
        var (pg', done) := Handle(s.pg, s.redis.stream[|s.outcomes|], ok);
        s.(pg := pg', outcomes := s.outcomes + [done], acking := done)
    case Ack(ok) =>
      if !s.acking then s
      else s.(acking := false, pending := if ok then s.pending - {|s.outcomes| - 1} else s.pending)
    case Crash =>
      s.(acking := false, outcomes := s.outcomes + seq(s.delivered - |s.outcomes|, _ => false))
    case Overwrite(v, exact) =>
      if v in s.pg.counts then s.(pg := s.pg.(counts := s.pg.counts[v := exact])) else s
  }

  function RunAll(s: System, actions: seq<Action>): (s': System)
    requires Consistent(s)
    ensures Consistent(s')
  {
    if actions == [] then s
    else Step(RunAll(s, actions[..|actions| - 1]), actions[|actions| - 1])
  }

  /** An empty backlog, with Redis and Postgres in agreement. */
  ghost predicate Start(s: System) {
    && s.redis.stream == [] && s.delivered == 0 && s.outcomes == [] && !s.acking && s.pending == {}
    && WellFormed(s.pg) && s.redis.liked == s.pg.edges && CountersExact(s.redis)
  }

  // ----- replaying a stream on a set of edges -----

  function Apply1(edges: set<Pair>, e: Entry): set<Pair> {
    match e
    case None => edges
    case Some(ev) => if ev.op == Like then edges + {ev.pair} else edges - {ev.pair}
  }

  function Replayed(edges: set<Pair>, entries: seq<Entry>): set<Pair> {
    if entries == [] then edges
    else Apply1(Replayed(edges, entries[..|entries| - 1]), entries[|entries| - 1])
  }

  predicate About(e: Entry, p: Pair) {
    e.Some? && e.value.pair == p
  }

  predicate Mentions(entries: seq<Entry>, p: Pair) {
    exists i :: 0 <= i < |entries| && About(entries[i], p)
  }

  lemma {:induction false} ReplayedConcat(edges: set<Pair>, a: seq<Entry>, b: seq<Entry>)
    ensures Replayed(edges, a + b) == Replayed(Replayed(edges, a), b)
  {
    if b == [] {
      assert a + b == a;
    } else {
      assert (a + b)[..|a + b| - 1] == a + b[..|b| - 1];
      ReplayedConcat(edges, a, b[..|b| - 1]);
    }
  }

  /** Two replays of one backlog agree on a pair exactly when they started in
      agreement on it or the backlog decides it. */
  lemma {:induction false} ReplaysAgreeIff(x: set<Pair>, y: set<Pair>, entries: seq<Entry>, p: Pair)
    ensures (p in Replayed(x, entries) <==> p in Replayed(y, entries)) <==>
            (Mentions(entries, p) || (p in x <==> p in y))
  {
    if entries != [] {
      var init, last := entries[..|entries| - 1], entries[|entries| - 1];
      ReplaysAgreeIff(x, y, init, p);
      assert Mentions(entries, p) <==> Mentions(init, p) || About(last, p) by {
        if Mentions(init, p) {
          var i :| 0 <= i < |init| && About(init[i], p);
          assert About(entries[i], p);
        }
        if About(last, p) {
          assert About(entries[|entries| - 1], p);
        }
      }
    }
  }

  /** The events on p that failed since the last one that was applied. */
  function FailedTail(stream: seq<Entry>, outcomes: seq<bool>, p: Pair): nat
    requires |outcomes| <= |stream|
  {
    if outcomes == [] then 0
    else
      var n := |outcomes| - 1;
      if !About(stream[n], p) then FailedTail(stream, outcomes[..n], p)
      else if outcomes[n] then 0
      else FailedTail(stream, outcomes[..n], p) + 1
  }

  lemma {:induction false} FailedTailOfLongerStream(stream: seq<Entry>, e: Entry, outcomes: seq<bool>, p: Pair)
    requires |outcomes| <= |stream|
    ensures FailedTail(stream + [e], outcomes, p) == FailedTail(stream, outcomes, p)
  {
    if outcomes != [] {
      FailedTailOfLongerStream(stream, e, outcomes[..|outcomes| - 1], p);
    }
  }

  // ----- the invariant -----

  /** The script emits an event only when it flips a set member. */
  predicate Flips(start: set<Pair>, stream: seq<Entry>) {
    forall i :: 0 <= i < |stream| && stream[i].Some? ==>
      (stream[i].value.op == Like <==> stream[i].value.pair !in Replayed(start, stream[..i]))
  }

  ghost predicate StreamInv(start: set<Pair>, s: System) {
    && Flips(start, s.redis.stream) && s.redis.liked == Replayed(start, s.redis.stream)
    && CountersExact(s.redis)
  }

  /** An edge differs from what the handled part of the stream prescribes
      exactly while an odd number of events on it failed in a row. */
  predicate EdgeInv(start: set<Pair>, s: System, p: Pair)
    requires Consistent(s)
  {
    (p in s.pg.edges <==> p in Replayed(start, s.redis.stream[..|s.outcomes|])) <==>
    FailedTail(s.redis.stream, s.outcomes, p) % 2 == 0
  }

  /** Only applied or malformed entries are ever acknowledged. */
  predicate AckInv(s: System) {
    && (forall i: nat :: i < s.delivered && i !in s.pending ==> i < |s.outcomes| && s.outcomes[i])
    && (s.acking ==> |s.outcomes| > 0 && s.outcomes[|s.outcomes| - 1])
  }

  lemma AppendKeepsStreamInv(start: set<Pair>, stream: seq<Entry>, e: Entry)
    requires Flips(start, stream)
    requires e.Some? ==> (e.value.op == Like <==> e.value.pair !in Replayed(start, stream))
    ensures Flips(start, stream + [e])
    ensures Replayed(start, stream + [e]) == Apply1(Replayed(start, stream), e)
  {
    assert (stream + [e])[..|stream|] == stream;
    forall i | 0 <= i < |stream|
      ensures (stream + [e])[..i] == stream[..i]
    {}
  }

  lemma StreamInvStep(start: set<Pair>, s: System, a: Action)
    requires Consistent(s) && StreamInv(start, s)
    ensures StreamInv(start, Step(s, a))
  {
    match a
    case Request(p, op) =>
      ScriptKeepsCountersExact(s.redis, p, op);
      AppendKeepsStreamInv(start, s.redis.stream, if p in s.redis.liked then Some(Event(p, Unlike)) else Some(Event(p, Like)));
    case Inject => AppendKeepsStreamInv(start, s.redis.stream, None);
    case _ =>
  }

  /** Handling one more entry, applied or failed, keeps the edge invariant. */
  lemma OutcomeKeepsEdgeInv(start: set<Pair>, s: System, pg': Pg, done: bool, p: Pair)
    requires Consistent(s) && StreamInv(start, s) && EdgeInv(start, s, p)
    requires |s.outcomes| < s.delivered
    requires var e := s.redis.stream[|s.outcomes|];
             && (done ==> (p in pg'.edges <==> p in Apply1(s.pg.edges, e)))
             && (!done ==> pg'.edges == s.pg.edges)
    ensures EdgeInv(start, s.(pg := pg', outcomes := s.outcomes + [done]), p)
  {
    var n := |s.outcomes|;
    var stream := s.redis.stream;
    assert stream[..n + 1][..n] == stream[..n];
    assert (s.outcomes + [done])[..n] == s.outcomes;
    assert Replayed(start, stream[..n + 1]) == Apply1(Replayed(start, stream[..n]), stream[n]);
    if About(stream[n], p) {
      assert stream[n].value.op == Like <==> p !in Replayed(start, stream[..n]);
    }
  }

  lemma {:induction false} CrashKeepsEdgeInv(start: set<Pair>, s: System, k: nat, p: Pair)
    requires Consistent(s) && StreamInv(start, s) && EdgeInv(start, s, p)
    requires |s.outcomes| + k <= s.delivered
    ensures EdgeInv(start, s.(outcomes := s.outcomes + seq(k, _ => false)), p)
  {
    if k == 0 {
      assert s.outcomes + seq(k, _ => false) == s.outcomes;
    } else {
      CrashKeepsEdgeInv(start, s, k - 1, p);
      var t := s.(outcomes := s.outcomes + seq(k - 1, _ => false));
      OutcomeKeepsEdgeInv(start, t, t.pg, false, p);
      assert t.outcomes + [false] == s.outcomes + seq(k, _ => false);
    }
  }

  lemma HandleKeepsWellFormed(pg: Pg, e: Entry, ok: bool)
    requires WellFormed(pg)
    ensures WellFormed(Handle(pg, e, ok).0)
    ensures Handle(pg, e, ok).1 ==> Handle(pg, e, ok).0.edges == Apply1(pg.edges, e)
    ensures !Handle(pg, e, ok).1 ==> Handle(pg, e, ok).0 == pg
  {}

  lemma EdgeInvStep(start: set<Pair>, s: System, a: Action, p: Pair)
    requires Consistent(s) && StreamInv(start, s) && EdgeInv(start, s, p) && WellFormed(s.pg)
    ensures WellFormed(Step(s, a).pg) && EdgeInv(start, Step(s, a), p)
  {
    var stream, s' := s.redis.stream, Step(s, a);
    match a
    case Request(_, _) =>
      if s'.redis.stream != stream {
        FailedTailOfLongerStream(stream, s'.redis.stream[|stream|], s.outcomes, p);
        assert s'.redis.stream[..|s.outcomes|] == stream[..|s.outcomes|];
      }
    case Inject =>
      FailedTailOfLongerStream(stream, None, s.outcomes, p);
      assert s'.redis.stream[..|s.outcomes|] == stream[..|s.outcomes|];
    case Process(ok) =>
      if !s.acking && |s.outcomes| < s.delivered {
        var (pg', done) := Handle(s.pg, stream[|s.outcomes|], ok);
        HandleKeepsWellFormed(s.pg, stream[|s.outcomes|], ok);
        OutcomeKeepsEdgeInv(start, s, pg', done, p);
      }
    case Crash => CrashKeepsEdgeInv(start, s, s.delivered - |s.outcomes|, p);
    case _ =>
  }

  lemma AckInvStep(s: System, a: Action)
    requires Consistent(s) && AckInv(s)
    ensures AckInv(Step(s, a))
  {}

  lemma {:induction false} Reachable(s0: System, actions: seq<Action>, p: Pair)
    requires Start(s0)
    ensures Consistent(s0)
    ensures var s := RunAll(s0, actions);
            WellFormed(s.pg) && StreamInv(s0.redis.liked, s) && EdgeInv(s0.redis.liked, s, p) && AckInv(s)
  {
    if actions != [] {
      var init, a := actions[..|actions| - 1], actions[|actions| - 1];
      Reachable(s0, init, p);
      var s := RunAll(s0, init);
      assert RunAll(s0, actions) == Step(s, a);
      StreamInvStep(s0.redis.liked, s, a);
      EdgeInvStep(s0.redis.liked, s, a, p);
      AckInvStep(s, a);
    }
  }

  // ----- main results -----

  /** In every reachable state, replaying the unhandled part of the stream on
      the Postgres edges gives a pair its Redis value if and only if that part
      still mentions the pair or an even number of its events failed since the
      last one applied. */
  lemma ConvergesIff(s0: System, actions: seq<Action>, p: Pair)
    requires Start(s0)
    ensures Consistent(s0)
    ensures var s := RunAll(s0, actions);
            var backlog := s.redis.stream[|s.outcomes|..];
            (p in Replayed(s.pg.edges, backlog) <==> p in s.redis.liked) <==>
            (Mentions(backlog, p) || FailedTail(s.redis.stream, s.outcomes, p) % 2 == 0)
  {
    Reachable(s0, actions, p);
    BacklogDecidesIff(s0.redis.liked, RunAll(s0, actions), p);
  }

  lemma BacklogDecidesIff(start: set<Pair>, s: System, p: Pair)
    requires Consistent(s) && StreamInv(start, s) && EdgeInv(start, s, p)
    ensures var backlog := s.redis.stream[|s.outcomes|..];
            (p in Replayed(s.pg.edges, backlog) <==> p in s.redis.liked) <==>
            (Mentions(backlog, p) || FailedTail(s.redis.stream, s.outcomes, p) % 2 == 0)
  {
    var handled, backlog := s.redis.stream[..|s.outcomes|], s.redis.stream[|s.outcomes|..];
    assert handled + backlog == s.redis.stream;
    ReplayedConcat(start, handled, backlog);
    ReplaysAgreeIff(s.pg.edges, Replayed(start, handled), backlog, p);
  }

  lemma {:induction false} NoFailureNoTail(stream: seq<Entry>, outcomes: seq<bool>, p: Pair)
    requires |outcomes| <= |stream|
    requires forall i :: 0 <= i < |outcomes| && About(stream[i], p) ==> outcomes[i]
    ensures FailedTail(stream, outcomes, p) == 0
  {
    if outcomes != [] {
      NoFailureNoTail(stream, outcomes[..|outcomes| - 1], p);
    }
  }

  predicate Drained(s: System) {
    |s.outcomes| == |s.redis.stream|
  }

  lemma {:induction false} DriftStaysZero(s0: System, actions: seq<Action>, v: VideoId)
    requires Consistent(s0) && WellFormed(s0.pg) && v in s0.pg.counts && Drift(RowOf(s0.pg, v)) == 0
    requires forall a :: a in actions ==> !a.Overwrite?
    ensures var s := RunAll(s0, actions);
            WellFormed(s.pg) && v in s.pg.counts && Drift(RowOf(s.pg, v)) == 0
  {
    if actions != [] {
      DriftStaysZero(s0, actions[..|actions| - 1], v);
      var s, a := RunAll(s0, actions[..|actions| - 1]), actions[|actions| - 1];
      assert a in actions;
      if a.Process? && !s.acking && |s.outcomes| < s.delivered {
        var e := s.redis.stream[|s.outcomes|];
        if e.Some? {
          ApplyTouchesOneRow(s.pg, e.value, v);
          DriftStep(RowOf(s.pg, v), UserOp(e.value.pair.user, e.value.op));
        }
      }
    }
  }

  /** No Apply has failed and no entry was lost in a crash. */
  predicate NoneFailed(s: System) {
    forall i :: 0 <= i < |s.outcomes| ==> s.outcomes[i]
  }

  /** Once the stream is drained without a failed Apply the like edges are the
      Redis sets, whatever the reconciler wrote. */
  lemma EdgesOnceDrained(s0: System, actions: seq<Action>)
    requires Start(s0)
    ensures Consistent(s0)
    ensures var s := RunAll(s0, actions);
            && WellFormed(s.pg) && CountersExact(s.redis)
            && (Drained(s) && NoneFailed(s) ==> s.pg.edges == s.redis.liked)
  {
    Reachable(s0, actions, Pair(0, 0));
    var s := RunAll(s0, actions);
    if Drained(s) && NoneFailed(s) {
      forall p
        ensures p in s.pg.edges <==> p in s.redis.liked
      {
        ConvergesIff(s0, actions, p);
        NoFailureNoTail(s.redis.stream, s.outcomes, p);
        assert s.redis.stream[|s.outcomes|..] == [];
      }
    }
  }

  /** And with counters exact at the start and no reconciler write, the exact
      Postgres count of a video is its hot Redis counter. */
  lemma ExactOnceDrained(s0: System, actions: seq<Action>, v: VideoId)
    requires Start(s0) && v in s0.pg.counts && Drift(RowOf(s0.pg, v)) == 0
    requires forall a :: a in actions ==> !a.Overwrite?
    ensures Consistent(s0)
    ensures var s := RunAll(s0, actions);
            Drained(s) && NoneFailed(s) ==>
              s.pg.edges == s.redis.liked && v in s.pg.counts && s.pg.counts[v] == CounterOf(s.redis.counter, v)
  {
    EdgesOnceDrained(s0, actions);
    DriftStaysZero(s0, actions, v);
  }

  /** After any reconciler writes and from any drift: once the stream is drained
      without a failed Apply, one undisturbed pass makes the count of every sampled
      video its hot Redis counter. */
  lemma ReconciledOnceDrained(s0: System, actions: seq<Action>, ids: seq<VideoId>, ws: seq<LikeReconciler.Window>, v: VideoId)
    requires Start(s0) && |ids| == |ws| && v in ids
    requires forall j :: 0 <= j < |ws| ==> LikeReconciler.Quiet(ws[j])
    ensures Consistent(s0)
    ensures var s := RunAll(s0, actions);
            var healed := LikeReconciler.Pass(s.pg, ids, ws, |ids|).0;
            Drained(s) && NoneFailed(s) && v in s.pg.counts ==>
              healed.edges == s.redis.liked && v in healed.counts && healed.counts[v] == CounterOf(s.redis.counter, v)
  {
    EdgesOnceDrained(s0, actions);
    LikeReconciler.QuietPassHeals(RunAll(s0, actions).pg, ids, ws, |ids|);
    assert ids[..|ids|] == ids;
  }

  /** Acknowledged entries were applied or malformed; every entry whose Apply
      failed, or that a crash dropped from memory, is still pending. */
  lemma OnlyHandledEntriesAreAcked(s0: System, actions: seq<Action>, i: nat)
    requires Start(s0)
    ensures Consistent(s0)
    ensures var s := RunAll(s0, actions);
            i < |s.outcomes| && !s.outcomes[i] ==> i in s.pending
  {
    Reachable(s0, actions, Pair(0, 0));
  }

  /** A read hands out as many new entries as it may, all pending now, once
      everything read before was handled. */
  lemma DeliverHandsOut(s: System, n: nat, i: nat)
    requires Consistent(s) && !s.acking && |s.outcomes| == s.delivered
    ensures var t := Step(s, Deliver(n));
            && s.delivered <= t.delivered <= |s.redis.stream| && t.delivered - s.delivered <= n
            && (t.delivered == |s.redis.stream| || t.delivered - s.delivered == n)
            && (s.delivered <= i < t.delivered ==> i in t.pending)
            && t.redis == s.redis && t.pg == s.pg
  {}

  /** What happens around the worker: a malformed entry is one more entry and
      nothing else, a reconciler write one counter and nothing else. */
  lemma OthersDo(s: System, v: VideoId, exact: nat)
    requires Consistent(s)
    ensures Step(s, Inject) == s.(redis := s.redis.(stream := s.redis.stream + [None]))
    ensures var t := Step(s, Overwrite(v, exact));
            && t == s.(pg := t.pg) && t.pg.edges == s.pg.edges && t.pg.counts.Keys == s.pg.counts.Keys
            && forall w :: w in s.pg.counts ==> t.pg.counts[w] == if w == v then exact else s.pg.counts[w]
  {}

  // ----- what is pending -----

  /** The system after the first k actions. */
  function At(s: System, actions: seq<Action>, k: nat): (s': System)
    requires Consistent(s) && k <= |actions|
    ensures Consistent(s')
  {
    if k == 0 then s else Step(At(s, actions, k - 1), actions[k - 1])
  }

  lemma {:induction false} AtOfPrefix(s: System, actions: seq<Action>, n: nat, k: nat)
    requires Consistent(s) && k <= n <= |actions|
    ensures At(s, actions[..n], k) == At(s, actions, k)
  {
    if k > 0 {
      AtOfPrefix(s, actions, n, k - 1);
    }
  }

  lemma {:induction false} RunIsAt(s: System, actions: seq<Action>)
    requires Consistent(s)
    ensures RunAll(s, actions) == At(s, actions, |actions|)
  {
    if actions != [] {
      var n := |actions| - 1;
      RunIsAt(s, actions[..n]);
      AtOfPrefix(s, actions, n, n);
    }
  }

  /** The statement goes through: an unlike always, a like of a video with a row or
      of one that is liked already. */
  predicate Applies(pg: Pg, ev: Event) {
    ev.op == Unlike || ev.pair in pg.edges || ev.pair.video in pg.counts
  }

  /** The action handles entry i successfully: it is malformed, or its statement is
      carried out. */
  predicate Handles(s: System, a: Action, i: nat)
    requires Consistent(s)
  {
    && a.Process? && !s.acking && i == |s.outcomes| < s.delivered
    && (s.redis.stream[i].None? || (a.ok && Applies(s.pg, s.redis.stream[i].value)))
  }

  predicate HandledBy(s: System, actions: seq<Action>, k: nat, i: nat)
    requires Consistent(s) && k < |actions|
  {
    Handles(At(s, actions, k), actions[k], i)
  }

  /** Between the two actions the worker neither acknowledges nor crashes. */
  predicate Undisturbed(actions: seq<Action>, k: nat, m: nat)
    requires m <= |actions|
  {
    forall j :: k < j < m ==> !actions[j].Ack? && !actions[j].Crash?
  }

  /** Entry i was handled successfully in the first n actions, and its XACK is still
      to come; or it went through. */
  ghost predicate AckIsDue(s: System, actions: seq<Action>, n: nat, i: nat)
    requires Consistent(s) && n <= |actions|
  {
    exists k :: 0 <= k < n && HandledBy(s, actions, k, i) && Undisturbed(actions, k, n)
  }

  ghost predicate AckWentThrough(s: System, actions: seq<Action>, n: nat, i: nat)
    requires Consistent(s) && n <= |actions|
  {
    exists m :: 0 <= m < n && actions[m] == Ack(true) && AckIsDue(s, actions, m, i)
  }

  /** What one action does to the entries that are pending and to the one whose
      XACK comes next. */
  lemma PendingStep(s: System, a: Action, i: nat)
    requires Consistent(s)
    ensures var t := Step(s, a);
            && (i in t.pending <==>
                  (i in s.pending || s.delivered <= i < t.delivered)
                  && !(a == Ack(true) && s.acking && i == |s.outcomes| - 1))
            && (t.acking && i == |t.outcomes| - 1 <==>
                  Handles(s, a, i) || (s.acking && i == |s.outcomes| - 1 && !a.Ack? && !a.Crash?))
            && t.delivered >= s.delivered
  {}

  lemma DueStep(s: System, actions: seq<Action>, n: nat, i: nat)
    requires Consistent(s) && n < |actions|
    ensures AckIsDue(s, actions, n + 1, i) <==>
              HandledBy(s, actions, n, i) || (AckIsDue(s, actions, n, i) && !actions[n].Ack? && !actions[n].Crash?)
  {
    if AckIsDue(s, actions, n, i) && !actions[n].Ack? && !actions[n].Crash? {
      var k :| 0 <= k < n && HandledBy(s, actions, k, i) && Undisturbed(actions, k, n);
      assert Undisturbed(actions, k, n + 1);
    }
    if AckIsDue(s, actions, n + 1, i) && !HandledBy(s, actions, n, i) {
      var k :| 0 <= k < n + 1 && HandledBy(s, actions, k, i) && Undisturbed(actions, k, n + 1);
      assert Undisturbed(actions, k, n);
    }
    if HandledBy(s, actions, n, i) {
      assert Undisturbed(actions, n, n + 1);
    }
  }

  lemma WentThroughStep(s: System, actions: seq<Action>, n: nat, i: nat)
    requires Consistent(s) && n < |actions|
    ensures AckWentThrough(s, actions, n + 1, i) <==>
              AckWentThrough(s, actions, n, i) || (actions[n] == Ack(true) && AckIsDue(s, actions, n, i))
  {}

  /** The same two, step by step. */
  predicate Due(s: System, actions: seq<Action>, n: nat, i: nat)
    requires Consistent(s) && n <= |actions|
  {
    n > 0 &&
    (HandledBy(s, actions, n - 1, i) || (Due(s, actions, n - 1, i) && !actions[n - 1].Ack? && !actions[n - 1].Crash?))
  }

  predicate Through(s: System, actions: seq<Action>, n: nat, i: nat)
    requires Consistent(s) && n <= |actions|
  {
    n > 0 && (Through(s, actions, n - 1, i) || (actions[n - 1] == Ack(true) && Due(s, actions, n - 1, i)))
  }

  lemma {:induction false} DueIsDue(s: System, actions: seq<Action>, n: nat, i: nat)
    requires Consistent(s) && n <= |actions|
    ensures Due(s, actions, n, i) <==> AckIsDue(s, actions, n, i)
  {
    if n > 0 {
      DueIsDue(s, actions, n - 1, i);
      DueStep(s, actions, n - 1, i);
    }
  }

  lemma {:induction false} ThroughIsThrough(s: System, actions: seq<Action>, n: nat, i: nat)
    requires Consistent(s) && n <= |actions|
    ensures Through(s, actions, n, i) <==> AckWentThrough(s, actions, n, i)
  {
    if n > 0 {
      ThroughIsThrough(s, actions, n - 1, i);
      DueIsDue(s, actions, n - 1, i);
      WentThroughStep(s, actions, n - 1, i);
    }
  }

  lemma {:induction false} PendingAt(s: System, actions: seq<Action>, n: nat, i: nat)
    requires Start(s) && n <= |actions|
    ensures Consistent(s)
    ensures var t := At(s, actions, n);
            && (i in t.pending <==> i < t.delivered && !Through(s, actions, n, i))
            && (t.acking && i == |t.outcomes| - 1 <==> Due(s, actions, n, i))
            && (Through(s, actions, n, i) ==> i < t.delivered)
  {
    if n > 0 {
      PendingAt(s, actions, n - 1, i);
      PendingStep(At(s, actions, n - 1), actions[n - 1], i);
    }
  }

  /** After any run a delivered entry is pending if and only if it was not handled
      successfully, or no XACK of it went through. */
  lemma PendingIff(s: System, actions: seq<Action>, i: nat)
    requires Start(s)
    ensures Consistent(s)
    ensures var t := RunAll(s, actions);
            i in t.pending <==> i < t.delivered && !AckWentThrough(s, actions, |actions|, i)
  {
    PendingAt(s, actions, |actions|, i);
    ThroughIsThrough(s, actions, |actions|, i);
    RunIsAt(s, actions);
  }

  /** Nothing fails: no statement, no XACK, no process, and videos have their row. */
  predicate AllGoesWell(s: System, actions: seq<Action>) {
    forall a :: a in actions ==>
      match a
      case Request(p, _) => p.video in s.pg.counts
      case Process(ok) => ok
      case Ack(ok) => ok
      case Crash => false
      case _ => true
  }

  /** Everything handled so far is acknowledged, but for the entry whose XACK comes
      next. */
  ghost predicate NoneLeft(s: System, videos: set<VideoId>)
    requires Consistent(s)
  {
    && s.pg.counts.Keys == videos && NoneFailed(s)
    && (forall i: nat :: i in s.pending <==> |s.outcomes| - (if s.acking then 1 else 0) <= i < s.delivered)
    && (forall e :: e in s.redis.stream && e.Some? ==> e.value.pair.video in videos)
  }

  lemma NoneLeftStep(s: System, a: Action, videos: set<VideoId>)
    requires Consistent(s) && NoneLeft(s, videos)
    requires match a case Request(p, _) => p.video in videos case Process(ok) => ok case Ack(ok) => ok case Crash => false case _ => true
    ensures NoneLeft(Step(s, a), videos)
  {
    if a.Process? && !s.acking && |s.outcomes| < s.delivered {
      assert s.redis.stream[|s.outcomes|] in s.redis.stream;
    }
  }

  /** Then every delivered entry is applied or dropped, and once the stream is
      drained and the last XACK sent, nothing is pending. */
  lemma {:induction false} NothingPendingWhenAllGoesWell(s: System, actions: seq<Action>)
    requires Start(s) && AllGoesWell(s, actions)
    ensures Consistent(s)
    ensures var t := RunAll(s, actions);
            NoneLeft(t, s.pg.counts.Keys) && (Drained(t) && !t.acking ==> t.pending == {})
  {
    if actions != [] {
      var n := |actions| - 1;
      assert forall a :: a in actions[..n] ==> a in actions;
      NothingPendingWhenAllGoesWell(s, actions[..n]);
      assert actions[n] in actions;
      NoneLeftStep(RunAll(s, actions[..n]), actions[n], s.pg.counts.Keys);
    }
  }

  // ----- a like that is lost -----

  /** A single failed Apply is never made good: the entry stays pending, later
      reads only ask for new entries, and the drained tables keep the edge
      missing. */
  lemma FailedApplyDiverges(pg: Pg, v: VideoId, u: UserId)
    requires WellFormed(pg) && pg.edges == {} && v in pg.counts
    ensures var s0 := System(Redis({}, map[], []), 0, [], false, {}, pg);
            var s := RunAll(s0, [Request(Pair(u, v), Like), Deliver(100), Process(false), Deliver(100)]);
            Start(s0) && Drained(s) && Pair(u, v) in s.redis.liked && Pair(u, v) !in s.pg.edges && s.pending == {0}
  {
    var s0 := System(Redis({}, map[], []), 0, [], false, {}, pg);
    assert forall w :: Users({}, w) == {};
    var a1 := [Request(Pair(u, v), Like)];
    var a2, a3 := a1 + [Deliver(100)], a1 + [Deliver(100)] + [Process(false)];
    var s1 := Step(s0, a1[0]);
    assert RunAll(s0, a1) == s1 by { assert a1[..0] == []; }
    Snoc(s0, a1, Deliver(100));
    var s2 := Step(s1, Deliver(100));
    assert s2.delivered == 1 && s2.pending == {0};
    Snoc(s0, a2, Process(false));
    Snoc(s0, a3, Deliver(100));
    var s3 := Step(s2, Process(false));
    assert Step(s3, Deliver(100)).pending == {0};
    assert a3 + [Deliver(100)] == [Request(Pair(u, v), Like), Deliver(100), Process(false), Deliver(100)];
  }

  lemma Snoc(s: System, actions: seq<Action>, a: Action)
    requires Consistent(s)
    ensures RunAll(s, actions + [a]) == Step(RunAll(s, actions), a)
  {
    assert (actions + [a])[..|actions|] == actions;
  }

  /** The system actions of one read's worth of entries. */
  function BatchActions(applyOk: seq<bool>, ackOk: seq<bool>): seq<Action>
    requires |applyOk| == |ackOk|
  {
    if applyOk == [] then []
    else
      var n := |applyOk| - 1;
      BatchActions(applyOk[..n], ackOk[..n]) + [Process(applyOk[n])] + [Ack(ackOk[n])]
  }

  lemma BatchSnoc(s: System, oks: seq<bool>, acks: seq<bool>, ok: bool, ack: bool)
    requires Consistent(s) && |oks| == |acks|
    ensures RunAll(s, BatchActions(oks + [ok], acks + [ack])) ==
            Step(Step(RunAll(s, BatchActions(oks, acks)), Process(ok)), Ack(ack))
  {
    assert (oks + [ok])[..|oks|] == oks && (acks + [ack])[..|acks|] == acks;
    Snoc(s, BatchActions(oks, acks), Process(ok));
    Snoc(s, BatchActions(oks, acks) + [Process(ok)], Ack(ack));
  }

  lemma PrefixSnoc<T>(s: seq<T>, k: nat)
    requires k < |s|
    ensures s[..k + 1] == s[..k] + [s[k]]
  {}

  lemma BatchPrefix(s: System, oks: seq<bool>, acks: seq<bool>, k: nat)
    requires Consistent(s) && k < |oks| == |acks|
    ensures RunAll(s, BatchActions(oks[..k + 1], acks[..k + 1])) ==
            Step(Step(RunAll(s, BatchActions(oks[..k], acks[..k])), Process(oks[k])), Ack(acks[k]))
  {
    PrefixSnoc(oks, k);
    PrefixSnoc(acks, k);
    BatchSnoc(s, oks[..k], acks[..k], oks[k], acks[k]);
  }

  /** The worker process with the stores it talks to.  Its methods do what the
      actions of the system do, so the results above hold of it. */
  class Worker {
    const rdb: RedisStore
    const pg: Postgres
    var delivered: nat
    var outcomes: seq<bool>
    var pending: set<nat>

    function State(): System
      reads this, rdb, pg
    {
      System(rdb.State(), delivered, outcomes, false, pending, pg.State())
    }

    constructor (rdb: RedisStore, pg: Postgres)
      ensures this.rdb == rdb && this.pg == pg
      ensures State() == System(rdb.State(), 0, [], false, {}, pg.State())
    {
      this.rdb, this.pg := rdb, pg;
      delivered, outcomes, pending := 0, [], {};
    }

    /** XREADGROUP ">" once everything read before was handled. */
    method Read(count: nat)
      requires Consistent(State()) && |outcomes| == delivered
      modifies this
      ensures State() == Step(old(State()), Deliver(count))
    {
      var d := Min(delivered + count, |rdb.stream|);
      pending := pending + Positions(delivered, d);
      delivered := d;
    }

    /** One entry: apply it, and acknowledge it if it was applied or malformed.
        `applyOk` and `ackOk` say whether the statements go through. */
    method ProcessEntry(applyOk: bool, ackOk: bool)
      requires Consistent(State()) && |outcomes| < delivered
      modifies this, pg
      ensures State() == Step(Step(old(State()), Process(applyOk)), Ack(ackOk))
      ensures |outcomes| == |old(outcomes)| + 1 && delivered == old(delivered)
    {
      var e := rdb.stream[|outcomes|];
      var done := true;
      if e.Some? {
        var r := pg.Apply(e.value, applyOk);
        done := r.Ok?;
      }
      if done && ackOk {
        pending := pending - {|outcomes|};
      }
      outcomes := outcomes + [done];
    }

    /** The loop over the entries of one read. */
    method ProcessBatch(applyOk: seq<bool>, ackOk: seq<bool>)
      requires Consistent(State()) && |applyOk| == |ackOk| == delivered - |outcomes|
      modifies this, pg
      ensures State() == RunAll(old(State()), BatchActions(applyOk, ackOk))
      ensures |outcomes| == delivered == old(delivered)
    {
      ghost var s0 := State();
      for k := 0 to |applyOk|
        invariant delivered == old(delivered) && |outcomes| == |old(outcomes)| + k
        invariant Consistent(State())
        invariant State() == RunAll(s0, BatchActions(applyOk[..k], ackOk[..k]))
      {
        ProcessEntry(applyOk[k], ackOk[k]);
        BatchPrefix(s0, applyOk, ackOk, k);
      }
      assert applyOk[..|applyOk|] == applyOk && ackOk[..|ackOk|] == ackOk;
    }
  }
}
