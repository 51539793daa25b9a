/** The API side of view tracking: duration lookup, filter chain, unique marker,
    stream append, over the Redis keys they share. */
module ViewTrack {
  import opened Common
  import opened Text
  import opened ViewPolicy
  import opened BucketErasure
  import LB = LeakyBucket

  type Hash32 = s: string | |s| == 32 witness "00000000000000000000000000000000"
  type Hash16 = s: string | |s| == 16 witness "0000000000000000"

  datatype Input = Input(videoId: Uuid, viewerId: Option<Uuid>, ipHash: Hash32, uaHash: Hash16,
                         country: string, watchMs: int, durationSec: int)

  /** Who a view counts for. */
  datatype Subject = User(id: Uuid) | Anonymous(ip: Hash32, ua: Hash16)

  function SubjectOf(i: Input): Subject {
    match i.viewerId
    case Some(u) => User(u)
    case None => Anonymous(i.ipHash, i.uaHash)
  }

  function SubjectKey(s: Subject): string {
    match s
    case User(u) => "u:" + u
    case Anonymous(ip, ua) => "a:" + ip + ":" + ua
  }

  function PairKey(prefix: string, s: Subject, v: Uuid): string {
    prefix + SubjectKey(s) + ":" + v
  }

  function BucketKey(s: Subject, v: Uuid): string {
    PairKey("bucket:view:", s, v)
  }

  function UniqueKey(s: Subject, v: Uuid): string {
    PairKey("view:unique:", s, v)
  }

  lemma CancelPrefix(p: string, x: string, y: string)
    ensures p + x == p + y <==> x == y
  {
    if p + x == p + y {
      assert x == (p + x)[|p|..] == (p + y)[|p|..] == y;
    }
  }

  lemma CancelSuffix(x: string, y: string, a: string, b: string)
    requires |a| == |b|
    ensures x + a == y + b <==> x == y && a == b
  {
    if x + a == y + b {
      assert |x| == |y|;
      assert x == (x + a)[..|x|] == (y + b)[..|y|] == y;
      assert a == (x + a)[|x|..] == (y + b)[|y|..] == b;
    }
  }

  lemma SubjectKeysAreInjective(s: Subject, t: Subject)
    ensures SubjectKey(s) == SubjectKey(t) <==> s == t
  {
    match (s, t)
    case (User(a), User(b)) => CancelPrefix("u:", a, b);
    case (Anonymous(i, a), Anonymous(j, b)) =>
      CancelSuffix("a:" + i + ":", "a:" + j + ":", a, b);
      CancelSuffix("a:" + i, "a:" + j, ":", ":");
      CancelPrefix("a:", i, j);
    case _ =>
      assert SubjectKey(s)[0] != SubjectKey(t)[0];
  }

  /** Two viewers or two videos never share a bucket or a unique marker. */
  lemma KeysAreInjective(prefix: string, s: Subject, v: Uuid, t: Subject, w: Uuid)
    ensures PairKey(prefix, s, v) == PairKey(prefix, t, w) <==> s == t && v == w
  {
    CancelSuffix(prefix + SubjectKey(s) + ":", prefix + SubjectKey(t) + ":", v, w);
    CancelSuffix(prefix + SubjectKey(s), prefix + SubjectKey(t), ":", ":");
    CancelPrefix(prefix, SubjectKey(s), SubjectKey(t));
    SubjectKeysAreInjective(s, t);
  }

  // ----- one call: four store operations -----

  /** The fields of a stream entry that anyone reads; "" stands for a field that
      is absent, which the worker does not tell apart. */
  datatype Fields = Fields(vid: string, uid: string, ip: string, ua: string, c: string, u: string, t: string)

  /** `video:{id}:dur`, the buckets with their expiry, the unique markers' expiry
      times and stream:views. */
  datatype Redis = Redis(durations: map<Uuid, int>, hashes: map<string, LB.Bucket>, expiry: map<string, int>,
                         marks: map<string, int>, stream: seq<Fields>)

  datatype Settings = Settings(cfg: Config, failOpen: bool, uniqueTtlMs: Ttl)

  datatype Outcome = Rejected(reason: string) | Accepted(isUnique: bool) | Failed

  /** How far a call has come: entered, length looked up, through the filters,
      unique marker asked, answered. */
  datatype Stage = Entered | Looked | Passed | Marked(isUnique: bool) | Finished(out: Outcome)

  datatype Call = Call(input: Input, stage: Stage)

  /** The store operations of a call, each with its own reading of the clock; an
      operation that fails changes nothing in the store. */
  datatype Op = Look(fails: bool) | Filters(now: int, fails: bool) | Mark(now: int, fails: bool) | Append(now: int, fails: bool)

  function WithDuration(r: Redis, i: Input, fails: bool): Input {
    if !fails && i.videoId in r.durations && r.durations[i.videoId] > 0
    then i.(durationSec := r.durations[i.videoId]) else i
  }

  /** The two filters the application wires, in order. */
  datatype Filter = WatchThreshold | DurationRate

  const WIRED := [WatchThreshold, DurationRate]

  function FilterName(f: Filter): string {
    if f == WatchThreshold then "watch_threshold" else "duration_rate"
  }

  /** One filter's vote: the store after it, and the reason of a "no". */
  function Vote(r: Redis, f: Filter, s: Settings, i: Input, now: int, fails: bool): (Redis, Option<string>) {
    match f
    case WatchThreshold =>
      var need := RequiredWatchMs(i.durationSec, s.cfg);
      (r, if need > 0 && i.watchMs < need then Some("below_threshold") else None)
    case DurationRate =>
      var policy := RatePolicy(i.durationSec, s.cfg);
      if policy.None? then (r, None)
      else if fails then (r, if s.failOpen then None else Some("infra_error"))
      else
        RatePolicyIsSound(i.durationSec, s.cfg);
        var key := BucketKey(SubjectOf(i), i.videoId);
        var (b, reply) := LB.Script(policy.value, LB.Lookup(r.hashes, r.expiry, key, now), now, 1);
        (r.(hashes := r.hashes[key := b], expiry := r.expiry[key := now + LB.TtlMs(policy.value)]),
         if reply.allowed then None else Some("rate_limited"))
  }

  /** The chain stops at the first "no". */
  function ChainApply(r: Redis, filters: seq<Filter>, s: Settings, i: Input, now: int, fails: bool)
    : (Redis, Option<string>)
    decreases |filters|
  {
    if filters == [] then (r, None)
    else
      var (r', reason) := Vote(r, filters[0], s, i, now, fails);
      if reason.Some? then (r', Some(FilterName(filters[0]) + ":" + reason.value))
      else ChainApply(r', filters[1..], s, i, now, fails)
  }

  function TryMark(marks: map<string, int>, key: string, now: int, ttlMs: int): (map<string, int>, bool) {
    if key in marks && now < marks[key] then (marks, false) else (marks[key := now + ttlMs], true)
  }

  function Encode(i: Input, isUnique: bool, ts: int): Fields {
    Fields(i.videoId, if i.viewerId.Some? then i.viewerId.value else "", i.ipHash, i.uaHash, i.country,
           if isUnique then "1" else "0", FormatInt(ts))
  }

  predicate Enabled(c: Call, op: Op) {
    match c.stage
    case Entered => op.Look?
    case Looked => op.Filters?
    case Passed => op.Mark?
    case Marked(_) => op.Append?
    case Finished(_) => false
  }

  /** One operation of a call; one whose turn it is not changes nothing. */
  function Work(r: Redis, s: Settings, c: Call, op: Op): (Redis, Call) {
    if !Enabled(c, op) then (r, c)
    else
      match op
      case Look(fails) => (r, Call(WithDuration(r, c.input, fails), Looked))
      case Filters(now, fails) =>
        var (r', no) := ChainApply(r, WIRED, s, c.input, now, fails);
        (r', c.(stage := if no.Some? then Finished(Rejected(no.value)) else Passed))
      case Mark(now, fails) =>
        var (marks, marked) := TryMark(r.marks, UniqueKey(SubjectOf(c.input), c.input.videoId), now, s.uniqueTtlMs);
        if fails then (r, c.(stage := Marked(false))) else (r.(marks := marks), c.(stage := Marked(marked)))
      case Append(now, fails) =>
        if fails then (r, c.(stage := Finished(Failed)))
        else (r.(stream := r.stream + [Encode(c.input, c.stage.isUnique, now)]),
              c.(stage := Finished(Accepted(c.stage.isUnique))))
  }

  /** The four operations of one call with nothing in between. */
  function InOrder(r: Redis, s: Settings, c: Call, look: Op, filter: Op, mark: Op, append: Op): (Redis, Call) {
    var (r1, c1) := Work(r, s, c, look);
    var (r2, c2) := Work(r1, s, c1, filter);
    var (r3, c3) := Work(r2, s, c2, mark);
    Work(r3, s, c3, append)
  }

  /** The service object and the Redis keys it owns.  Each of its store operations
      is one method; calls that run at once interleave between them. */
  class Service {
    const settings: Settings
    const filters: seq<Filter>
    var durations: map<Uuid, int>
    const buckets: LB.Store
    var marks: map<string, int>
    var stream: seq<Fields>

    function State(): Redis
      reads this, buckets
    {
      Redis(durations, buckets.hashes, buckets.expiry, marks, stream)
    }

    constructor (settings: Settings, buckets: LB.Store, durations: map<Uuid, int>)
      ensures this.settings == settings && this.filters == WIRED && this.buckets == buckets
      ensures State() == Redis(durations, buckets.hashes, buckets.expiry, map[], [])
    {
      this.settings, this.filters, this.buckets := settings, WIRED, buckets;
      this.durations, marks, stream := durations, map[], [];
    }

    method LookUp(input: Input, fails: bool) returns (i: Input)
      ensures Work(State(), settings, Call(input, Entered), Look(fails)) == (State(), Call(i, Looked))
    {
      i := input;
      if !fails && i.videoId in durations && durations[i.videoId] > 0 {
        i := i.(durationSec := durations[i.videoId]);
      }
    }

    method Allow(filter: Filter, i: Input, now: int, fails: bool) returns (reason: Option<string>)
      modifies buckets
      ensures (State(), reason) == Vote(old(State()), filter, settings, i, now, fails)
    {
      if filter == WatchThreshold {
        var need := RequiredWatchMs(i.durationSec, settings.cfg);
        return if need > 0 && i.watchMs < need then Some("below_threshold") else None;
      }
      var policy := RatePolicy(i.durationSec, settings.cfg);
      if policy.None? {
        return None;
      }
      if fails {
        return if settings.failOpen then None else Some("infra_error");
      }
      RatePolicyIsSound(i.durationSec, settings.cfg);
      var key := BucketKey(SubjectOf(i), i.videoId);
      var r := buckets.Allow(key, policy.value, now, 1);
      reason := if r.allowed then None else Some("rate_limited");
    }

    method Apply(i: Input, now: int, fails: bool) returns (rejectedBy: Option<string>)
      modifies buckets
      ensures (State(), rejectedBy) == ChainApply(old(State()), filters, settings, i, now, fails)
    {
      ghost var start := State();
      for k := 0 to |filters|
        invariant ChainApply(start, filters, settings, i, now, fails) ==
                  ChainApply(State(), filters[k..], settings, i, now, fails)
      {
        assert filters[k..][1..] == filters[k + 1..];
        var reason := Allow(filters[k], i, now, fails);
        if reason.Some? {
          return Some(FilterName(filters[k]) + ":" + reason.value);
        }
      }
      rejectedBy := None;
    }

    method MarkUnique(i: Input, now: int, fails: bool) returns (isUnique: bool)
      modifies `marks
      ensures (State(), Call(i, Marked(isUnique))) == Work(old(State()), settings, Call(i, Passed), Mark(now, fails))
    {
      isUnique := false;
      if !fails {
        var key := UniqueKey(SubjectOf(i), i.videoId);
        isUnique := !(key in marks && now < marks[key]);
        if isUnique {
          marks := marks[key := now + settings.uniqueTtlMs];
        }
      }
    }

    method Emit(i: Input, isUnique: bool, now: int, fails: bool) returns (out: Outcome)
      modifies `stream
      ensures (State(), Call(i, Finished(out))) == Work(old(State()), settings, Call(i, Marked(isUnique)), Append(now, fails))
    {
      if fails {
        return Failed;
      }
      stream := stream + [Encode(i, isUnique, now)];
      out := Accepted(isUnique);
    }

    /** A call from beginning to end, with nothing in between. */
    method Track(input: Input, look: Op, filter: Op, mark: Op, append: Op) returns (out: Outcome)
      requires filters == WIRED && look.Look? && filter.Filters? && mark.Mark? && append.Append?
      modifies this, buckets
      ensures var (r, c) := InOrder(old(State()), settings, Call(input, Entered), look, filter, mark, append);
              State() == r && c.stage == Finished(out)
    {
      var i := LookUp(input, look.fails);
      var rejectedBy := Apply(i, filter.now, filter.fails);
      if rejectedBy.Some? {
        return Rejected(rejectedBy.value);
      }
      var isUnique := MarkUnique(i, mark.now, mark.fails);
      out := Emit(i, isUnique, append.now, append.fails);
    }
  }

  // ----- what an operation changes -----

  /** What the wired chain does: the watch rule first and on its own, the bucket
      only for views that pass it, and nothing but the pair's bucket changes. */
  lemma WiredChain(r: Redis, s: Settings, i: Input, now: int, fails: bool)
    ensures ChainApply(r, WIRED, s, i, now, fails) ==
            var watch := Vote(r, WatchThreshold, s, i, now, fails).1;
            var rate := Vote(r, DurationRate, s, i, now, fails);
            if watch.Some? then (r, Some("watch_threshold:below_threshold"))
            else (rate.0, if rate.1.Some? then Some("duration_rate" + ":" + rate.1.value) else None)
  {
    assert "watch_threshold" + ":" + "below_threshold" == "watch_threshold:below_threshold";
    assert WIRED[1..] == [DurationRate] && [DurationRate][1..] == [];
    assert ChainApply(r, WIRED, s, i, now, fails) ==
      var (r', reason) := Vote(r, WatchThreshold, s, i, now, fails);
      if reason.Some? then (r', Some("watch_threshold" + ":" + reason.value))
      else ChainApply(r', [DurationRate], s, i, now, fails);
  }

  lemma FiltersTouchBuckets(r: Redis, s: Settings, i: Input, now: int, fails: bool)
    ensures var r' := ChainApply(r, WIRED, s, i, now, fails).0;
            r'.durations == r.durations && r'.marks == r.marks && r'.stream == r.stream
  {
    WiredChain(r, s, i, now, fails);
  }

  /** Each operation of a call touches one kind of key, in its turn only: the
      filters the buckets, the marker the marks, the append the stream; a
      rejected or answered call touches none any more. */
  lemma WorkEffects(r: Redis, s: Settings, c: Call, op: Op)
    ensures var (r', c') := Work(r, s, c, op);
            && r'.durations == r.durations
            && SubjectOf(c'.input) == SubjectOf(c.input) && c'.input.videoId == c.input.videoId
            && (!(c.stage.Looked? && op.Filters?) ==> r'.hashes == r.hashes && r'.expiry == r.expiry)
            && (!(c.stage.Passed? && op.Mark?) ==> r'.marks == r.marks)
            && (r'.stream != r.stream ==> c.stage.Marked? && c'.stage == Finished(Accepted(c.stage.isUnique)))
            && (c'.stage.Finished? && !c.stage.Finished? && c'.stage.out.Accepted? ==>
                  op.Append? && r'.stream == r.stream + [Encode(c.input, c'.stage.out.isUnique, op.now)])
            && (c.stage.Finished? ==> (r', c') == (r, c))
  {
    if op.Filters? {
      FiltersTouchBuckets(r, s, c.input, op.now, op.fails);
    }
  }

  // ----- which views are counted -----

  /** The viewer has watched enough: over a third of a rated length but for at most
      one millisecond, or the configured minimum for an unknown or short one. */
  predicate WatchedEnough(s: Settings, i: Input) {
    if i.durationSec >= (if s.cfg.minDurationSec <= 0 then 5 else s.cfg.minDurationSec)
    then 3 * (i.watchMs + 1) > 1000 * i.durationSec
    else s.cfg.unknownMinWatchMs <= 0 || i.watchMs >= s.cfg.unknownMinWatchMs
  }

  /** The video has a length that the bucket rates. */
  predicate IsRated(s: Settings, i: Input) {
    i.durationSec >= if s.cfg.minDurationSec <= 0 then 5 else s.cfg.minDurationSec
  }

  /** What the pair's bucket holds when the filters look at it. */
  function LevelFound(r: Redis, s: Settings, i: Input, now: int): real
    requires IsRated(s, i)
  {
    LB.LevelAt(RatePolicy(i.durationSec, s.cfg).value,
               LB.Lookup(r.hashes, r.expiry, BucketKey(SubjectOf(i), i.videoId), now), now)
  }

  /** One more view fits beside it: 60 over the length in seconds, but at least one. */
  predicate HasRoom(r: Redis, s: Settings, i: Input, now: int)
    requires IsRated(s, i)
  {
    LevelFound(r, s, i, now) + 1.0 <= Max(60 / i.durationSec, 1) as real
  }

  /** The watch rule's vote, from the time watched. */
  lemma WatchVote(r: Redis, s: Settings, i: Input, now: int, fails: bool)
    ensures Vote(r, WatchThreshold, s, i, now, fails) == (r, if WatchedEnough(s, i) then None else Some("below_threshold"))
  {
    if IsRated(s, i) {
      ThresholdIsAThird(i.durationSec, s.cfg, i.watchMs);
    }
  }

  /** The rate rule's vote, from the level found; only a call that consulted the
      bucket leaves a trace, and only an admitted one is charged. */
  lemma RateVote(r: Redis, s: Settings, i: Input, now: int, fails: bool)
    ensures var (r', no) := Vote(r, DurationRate, s, i, now, fails);
            if !IsRated(s, i) then (r', no) == (r, None)
            else if fails then (r', no) == (r, if s.failOpen then None else Some("infra_error"))
            else
              var (key, room) := (BucketKey(SubjectOf(i), i.videoId), HasRoom(r, s, i, now));
              && no == (if room then None else Some("rate_limited"))
              && r'.hashes == r.hashes[key := LB.Present(LevelFound(r, s, i, now) + (if room then 1.0 else 0.0), now)]
              && r' == r.(hashes := r'.hashes, expiry := r.expiry[key := now + 3_600_000])
  {
    RatePolicyIsSound(i.durationSec, s.cfg);
    if IsRated(s, i) && !fails {
      var key := BucketKey(SubjectOf(i), i.videoId);
      LB.ScriptReplies(RatePolicy(i.durationSec, s.cfg).value, LB.Lookup(r.hashes, r.expiry, key, now), now, 1);
    }
  }

  /** A call gets through the filters if and only if the viewer has watched enough
      and, for a rated length, the limiter has room for one more view (or is down
      and the service is set to go on); and which refusal it gets otherwise. */
  lemma FiltersDecide(r: Redis, s: Settings, c: Call, now: int, fails: bool)
    requires c.stage.Looked?
    ensures Work(r, s, c, Filters(now, fails)).1 == c.(stage :=
              if !WatchedEnough(s, c.input) then Finished(Rejected("watch_threshold:below_threshold"))
              else if !IsRated(s, c.input) then Passed
              else if fails then if s.failOpen then Passed else Finished(Rejected("duration_rate:infra_error"))
              else if HasRoom(r, s, c.input, now) then Passed else Finished(Rejected("duration_rate:rate_limited")))
    ensures !WatchedEnough(s, c.input) ==> Work(r, s, c, Filters(now, fails)).0 == r
    ensures WatchedEnough(s, c.input) ==>
              Work(r, s, c, Filters(now, fails)).0 == Vote(r, DurationRate, s, c.input, now, fails).0
  {
    WiredChain(r, s, c.input, now, fails);
    WatchVote(r, s, c.input, now, fails);
    RateVote(r, s, c.input, now, fails);
    assert "duration_rate" + ":" + "infra_error" == "duration_rate:infra_error";
    assert "duration_rate" + ":" + "rate_limited" == "duration_rate:rate_limited";
  }

  /** The length is the cached one if that is known and positive, else what the
      client sent; nothing else of the view changes. */
  lemma LookDecides(r: Redis, s: Settings, c: Call, fails: bool)
    requires c.stage.Entered?
    ensures var (r', c') := Work(r, s, c, Look(fails));
            && r' == r && c'.stage == Looked && c'.input == c.input.(durationSec := c'.input.durationSec)
            && (!fails && c.input.videoId in r.durations && r.durations[c.input.videoId] > 0 ==>
                  c'.input.durationSec == r.durations[c.input.videoId])
            && (fails || c.input.videoId !in r.durations || r.durations[c.input.videoId] <= 0 ==>
                  c'.input.durationSec == c.input.durationSec)
  {}

  // ----- calls at once -----

  datatype System = System(redis: Redis, calls: map<nat, Call>)

  datatype Action = Begin(id: nat, input: Input) | Do(id: nat, op: Op)

  function Step(y: System, s: Settings, a: Action): System {
    match a
    case Begin(id, input) => if id in y.calls then y else y.(calls := y.calls[id := Call(input, Entered)])
    case Do(id, op) =>
      if id !in y.calls then y
      else
        var (r, c) := Work(y.redis, s, y.calls[id], op);
        System(r, y.calls[id := c])
  }

  /** A call whose operations follow each other undisturbed is Track. */
  lemma AloneIsTrack(y: System, s: Settings, id: nat, input: Input, look: Op, filter: Op, mark: Op, append: Op)
    requires id !in y.calls
    ensures var z := Step(Step(Step(y, s, Begin(id, input)), s, Do(id, look)), s, Do(id, filter));
            var (r, c) := InOrder(y.redis, s, Call(input, Entered), look, filter, mark, append);
            Step(Step(z, s, Do(id, mark)), s, Do(id, append)) == System(r, y.calls[id := c])
  {
    var c0 := Call(input, Entered);
    var (r1, c1) := Work(y.redis, s, c0, look);
    var (r2, c2) := Work(r1, s, c1, filter);
    var (r3, c3) := Work(r2, s, c2, mark);
    var y0 := System(y.redis, y.calls[id := c0]);
    assert Step(y, s, Begin(id, input)) == y0;
    NextStep(y0, s, id, c0, look);
    NextStep(System(r1, y.calls[id := c1]), s, id, c1, filter);
    NextStep(System(r2, y.calls[id := c2]), s, id, c2, mark);
    NextStep(System(r3, y.calls[id := c3]), s, id, c3, append);
    assert y.calls[id := c0][id := c1] == y.calls[id := c1];
    assert y.calls[id := c1][id := c2] == y.calls[id := c2];
    assert y.calls[id := c2][id := c3] == y.calls[id := c3];
    var c4 := Work(r3, s, c3, append).1;
    assert y.calls[id := c3][id := c4] == y.calls[id := c4];
  }

  lemma NextStep(y: System, s: Settings, id: nat, c: Call, op: Op)
    requires id in y.calls && y.calls[id] == c
    ensures Step(y, s, Do(id, op)) == System(Work(y.redis, s, c, op).0, y.calls[id := Work(y.redis, s, c, op).1])
  {}

  /** The system after the first k actions of a run. */
  function At(y: System, s: Settings, actions: seq<Action>, k: nat): System
    requires k <= |actions|
  {
    if k == 0 then y else Step(At(y, s, actions, k - 1), s, actions[k - 1])
  }

  predicate For(i: Input, subject: Subject, v: Uuid) {
    SubjectOf(i) == subject && i.videoId == v
  }

  /** Action a is an operation of a call of this pair, in its turn. */
  predicate Works(y: System, a: Action, subject: Subject, v: Uuid) {
    a.Do? && a.id in y.calls && For(y.calls[a.id].input, subject, v) && Enabled(y.calls[a.id], a.op)
  }

  /** It takes a view of the pair through the filters. */
  predicate Passes(y: System, s: Settings, a: Action, subject: Subject, v: Uuid) {
    Works(y, a, subject, v) && a.op.Filters? && Step(y, s, a).calls[a.id].stage.Passed?
  }

  /** It counts a view of the pair. */
  predicate Accepts(y: System, a: Action, subject: Subject, v: Uuid) {
    Works(y, a, subject, v) && a.op.Append? && !a.op.fails
  }

  /** The views of one subject on one video that passed the filters, and those
      that were counted, in the first k actions. */
  function PassedIn(y: System, s: Settings, actions: seq<Action>, k: nat, subject: Subject, v: Uuid): nat
    requires k <= |actions|
  {
    if k == 0 then 0
    else
      PassedIn(y, s, actions, k - 1, subject, v) +
      if Passes(At(y, s, actions, k - 1), s, actions[k - 1], subject, v) then 1 else 0
  }

  function CountedIn(y: System, s: Settings, actions: seq<Action>, k: nat, subject: Subject, v: Uuid): nat
    requires k <= |actions|
  {
    if k == 0 then 0
    else
      CountedIn(y, s, actions, k - 1, subject, v) +
      if Accepts(At(y, s, actions, k - 1), actions[k - 1], subject, v) then 1 else 0
  }

  /** Calls of the pair that are through the filters and not answered yet. */
  function OnTheWay(y: System, subject: Subject, v: Uuid): set<nat> {
    set id | id in y.calls && For(y.calls[id].input, subject, v) && (y.calls[id].stage.Passed? || y.calls[id].stage.Marked?)
  }

  lemma OnTheWayStep(y: System, s: Settings, a: Action, subject: Subject, v: Uuid)
    ensures var (before, after) := (OnTheWay(y, subject, v), OnTheWay(Step(y, s, a), subject, v));
            && (Passes(y, s, a, subject, v) ==> after == before + {a.id})
            && (!Passes(y, s, a, subject, v) ==> after <= before)
            && (Accepts(y, a, subject, v) ==> a.id in before - after && !Passes(y, s, a, subject, v))
  {
    if a.Do? && a.id in y.calls {
      WorkEffects(y.redis, s, y.calls[a.id], a.op);
    }
  }

  /** Every counted view passed the filters first, and once. */
  lemma {:induction false} CountedHavePassed(y: System, s: Settings, actions: seq<Action>, k: nat, subject: Subject, v: Uuid)
    requires k <= |actions|
    ensures CountedIn(y, s, actions, k, subject, v) + |OnTheWay(At(y, s, actions, k), subject, v)| <=
            PassedIn(y, s, actions, k, subject, v) + |OnTheWay(y, subject, v)|
  {
    if k > 0 {
      CountedHavePassed(y, s, actions, k - 1, subject, v);
      var z, a := At(y, s, actions, k - 1), actions[k - 1];
      OnTheWayStep(z, s, a, subject, v);
      var before, after := OnTheWay(z, subject, v), OnTheWay(Step(z, s, a), subject, v);
      if Accepts(z, a, subject, v) {
        SubsetIsNotLarger(after, before - {a.id});
      } else if !Passes(z, s, a, subject, v) {
        SubsetIsNotLarger(after, before);
      }
    }
  }

  // ----- the physics cap -----

  function Bucket(r: Redis, key: string): LB.Bucket {
    if key in r.hashes then r.hashes[key] else LB.Absent
  }

  /** The bucket at a key is one this policy left behind. */
  predicate BucketOk(r: Redis, key: string, p: LB.Policy) {
    var b := Bucket(r, key);
    LB.InRange(p, b) && (b.Present? ==> key in r.expiry && r.expiry[key] == b.lastMs + LB.TtlMs(p))
  }

  /** The rate vote seen from one pair's bucket: votes on other pairs leave it
      alone, and one that lets a view of the pair through raises it by one. */
  lemma VoteOnBucket(r: Redis, s: Settings, i: Input, now: int, fails: bool, subject: Subject, v: Uuid, p: LB.Policy)
    requires LB.Valid(p) && p.capacity as real <= LB.Leak(p, LB.TtlMs(p))
    requires BucketOk(r, BucketKey(subject, v), p)
    requires For(i, subject, v) ==> !fails && RatePolicy(i.durationSec, s.cfg) == Some(p)
    ensures var (r', no) := Vote(r, DurationRate, s, i, now, fails);
            var key := BucketKey(subject, v);
            && BucketOk(r', key, p)
            && LB.LevelAt(p, Bucket(r', key), now) >=
               LB.LevelAt(p, Bucket(r, key), now) + if For(i, subject, v) && no.None? then 1.0 else 0.0
  {
    var key := BucketKey(subject, v);
    KeysAreInjective("bucket:view:", subject, v, SubjectOf(i), i.videoId);
    if For(i, subject, v) {
      var found := LB.Lookup(r.hashes, r.expiry, key, now);
      assert found == Found(p, Bucket(r, key), now);
      IdleBucketIsEmpty(p, Bucket(r, key), now);
      LB.ScriptKeepsRange(p, found, now, 1);
      LB.LeakIsMonotone(p, 0, 0);
    }
  }

  /** The cached length of v is d, and calls of the pair that have looked it up
      know it. */
  predicate Rated(y: System, subject: Subject, v: Uuid, d: int) {
    && v in y.redis.durations && y.redis.durations[v] == d
    && forall id :: id in y.calls && For(y.calls[id].input, subject, v) && y.calls[id].stage.Looked? ==>
         y.calls[id].input.durationSec == d
  }

  /** The rate limiter and the length lookup work for this pair. */
  predicate Working(y: System, a: Action, subject: Subject, v: Uuid) {
    Works(y, a, subject, v) && (a.op.Look? || a.op.Filters?) ==> !a.op.fails
  }

  predicate AllWorking(y: System, s: Settings, actions: seq<Action>, subject: Subject, v: Uuid) {
    forall k: nat :: k < |actions| ==> Working(At(y, s, actions, k), actions[k], subject, v)
  }

  lemma RatedStep(y: System, s: Settings, a: Action, subject: Subject, v: Uuid, d: int)
    requires Rated(y, subject, v, d) && d > 0 && Working(y, a, subject, v)
    ensures Rated(Step(y, s, a), subject, v, d)
  {
    if a.Do? && a.id in y.calls {
      WorkEffects(y.redis, s, y.calls[a.id], a.op);
    }
  }

  /** One action seen from one pair's bucket, at the time of the filters. */
  lemma StepOnBucket(y: System, s: Settings, a: Action, subject: Subject, v: Uuid, d: int, now: int)
    requires Rated(y, subject, v, d) && RatePolicy(d, s.cfg).Some? && Working(y, a, subject, v)
    requires a.Do? && a.op.Filters? ==> a.op.now == now
    requires BucketOk(y.redis, BucketKey(subject, v), RatePolicy(d, s.cfg).value)
    ensures var (z, p, key) := (Step(y, s, a), RatePolicy(d, s.cfg).value, BucketKey(subject, v));
            && BucketOk(z.redis, key, p)
            && LB.LevelAt(p, Bucket(z.redis, key), now) >=
               LB.LevelAt(p, Bucket(y.redis, key), now) + if Passes(y, s, a, subject, v) then 1.0 else 0.0
  {
    if a.Do? && a.id in y.calls {
      var c := y.calls[a.id];
      WorkEffects(y.redis, s, c, a.op);
      if c.stage.Looked? && a.op.Filters? {
        RatePolicyIsSound(d, s.cfg);
        VoteOnBucket(y.redis, s, c.input, now, a.op.fails, subject, v, RatePolicy(d, s.cfg).value);
        WiredChain(y.redis, s, c.input, now, a.op.fails);
      }
    }
  }

  /** The clock as the filters last read it, and the sum of its forward movements;
      it may step back. */
  function Clock(actions: seq<Action>, k: nat, from: int): int
    requires k <= |actions|
  {
    if k == 0 then from
    else if actions[k - 1].Do? && actions[k - 1].op.Filters? then actions[k - 1].op.now
    else Clock(actions, k - 1, from)
  }

  function Forward(actions: seq<Action>, k: nat, from: int): nat
    requires k <= |actions|
  {
    if k == 0 then 0
    else Forward(actions, k - 1, from) + Max(0, Clock(actions, k, from) - Clock(actions, k - 1, from))
  }

  /** A level falls no faster than the leak, whichever way the clock goes. */
  lemma LevelFalls(p: LB.Policy, b: LB.Bucket, t: int, u: int)
    requires LB.Valid(p)
    ensures LB.LevelAt(p, b, t) <= LB.LevelAt(p, b, u) + LB.Leak(p, Max(0, u - t))
  {
    LB.LeakIsMonotone(p, 0, Max(0, u - t));
    if b.Present? {
      var e := Max(0, t - b.lastMs);
      LB.LeakIsMonotone(p, Max(0, u - b.lastMs), e + Max(0, u - t));
      LB.LeakSums(p, e, Max(0, u - t));
    }
  }

  /** What passes is covered by what the level rises by and what leaks. */
  lemma CoverStep(p: LB.Policy, b: LB.Bucket, b': LB.Bucket, t: int, u: int, passed: nat, one: nat, forward: nat, start: real)
    requires LB.Valid(p)
    requires passed as real + start <= LB.LevelAt(p, b, t) + LB.Leak(p, forward)
    requires LB.LevelAt(p, b', u) >= LB.LevelAt(p, b, u) + one as real
    ensures (passed + one) as real + start <= LB.LevelAt(p, b', u) + LB.Leak(p, forward + Max(0, u - t))
  {
    LevelFalls(p, b, t, u);
    LB.LeakSums(p, forward, Max(0, u - t));
  }

  predicate Covered(y: System, s: Settings, actions: seq<Action>, k: nat, subject: Subject, v: Uuid, p: LB.Policy, from: int)
    requires k <= |actions|
  {
    var key := BucketKey(subject, v);
    PassedIn(y, s, actions, k, subject, v) as real + LB.LevelAt(p, Bucket(y.redis, key), from) <=
    LB.LevelAt(p, Bucket(At(y, s, actions, k).redis, key), Clock(actions, k, from)) + LB.Leak(p, Forward(actions, k, from))
  }

  lemma CoveredStep(y: System, s: Settings, actions: seq<Action>, k: nat, subject: Subject, v: Uuid, p: LB.Policy, from: int)
    requires k < |actions| && LB.Valid(p) && Covered(y, s, actions, k, subject, v, p, from)
    requires var (z, a, now) := (At(y, s, actions, k), actions[k], Clock(actions, k + 1, from));
             LB.LevelAt(p, Bucket(Step(z, s, a).redis, BucketKey(subject, v)), now) >=
             LB.LevelAt(p, Bucket(z.redis, BucketKey(subject, v)), now) + if Passes(z, s, a, subject, v) then 1.0 else 0.0
    ensures Covered(y, s, actions, k + 1, subject, v, p, from)
  {
    var z, a, key := At(y, s, actions, k), actions[k], BucketKey(subject, v);
    CoverStep(p, Bucket(z.redis, key), Bucket(Step(z, s, a).redis, key), Clock(actions, k, from), Clock(actions, k + 1, from),
              PassedIn(y, s, actions, k, subject, v), if Passes(z, s, a, subject, v) then 1 else 0,
              Forward(actions, k, from), LB.LevelAt(p, Bucket(y.redis, key), from));
  }

  lemma {:induction false} RatedAlong(y: System, s: Settings, actions: seq<Action>, k: nat, subject: Subject, v: Uuid, d: int)
    requires k <= |actions| && Rated(y, subject, v, d) && d > 0 && AllWorking(y, s, actions, subject, v)
    ensures Rated(At(y, s, actions, k), subject, v, d)
  {
    if k > 0 {
      RatedAlong(y, s, actions, k - 1, subject, v, d);
      assert Working(At(y, s, actions, k - 1), actions[k - 1], subject, v);
      RatedStep(At(y, s, actions, k - 1), s, actions[k - 1], subject, v, d);
    }
  }

  lemma {:induction false} PassedIsCovered(y: System, s: Settings, actions: seq<Action>, k: nat, subject: Subject, v: Uuid,
                                          d: int, from: int)
    requires k <= |actions| && Rated(y, subject, v, d) && RatePolicy(d, s.cfg).Some?
    requires AllWorking(y, s, actions, subject, v) && BucketOk(y.redis, BucketKey(subject, v), RatePolicy(d, s.cfg).value)
    ensures var (z, p) := (At(y, s, actions, k), RatePolicy(d, s.cfg).value);
            BucketOk(z.redis, BucketKey(subject, v), p) && Covered(y, s, actions, k, subject, v, p, from)
  {
    var p := RatePolicy(d, s.cfg).value;
    RatePolicyIsSound(d, s.cfg);
    if k == 0 {
      LB.LeakIsMonotone(p, 0, 0);
    } else {
      PassedIsCovered(y, s, actions, k - 1, subject, v, d, from);
      RatedAlong(y, s, actions, k - 1, subject, v, d);
      assert Working(At(y, s, actions, k - 1), actions[k - 1], subject, v);
      StepOnBucket(At(y, s, actions, k - 1), s, actions[k - 1], subject, v, d, Clock(actions, k, from));
      CoveredStep(y, s, actions, k - 1, subject, v, p, from);
    }
  }

  /** Physics cap: however the calls of all viewers interleave, and even if the
      clock steps back, the views of one subject on one video of known length d
      that pass the filters take at most a minute more to watch than the clock
      has moved forward; for d over a minute there is at most one per minute
      beyond the first. */
  lemma PhysicsCap(y: System, s: Settings, actions: seq<Action>, subject: Subject, v: Uuid, d: int, from: int)
    requires Rated(y, subject, v, d) && d >= MinDuration(s.cfg) && AllWorking(y, s, actions, subject, v)
    requires BucketOk(y.redis, BucketKey(subject, v), RatePolicy(d, s.cfg).value)
    ensures var (n, ms) := (PassedIn(y, s, actions, |actions|, subject, v), Forward(actions, |actions|, from));
            && (d <= 60 ==> (n * d) as real <= 60.0 + ms as real / 1000.0)
            && (d >= 60 ==> n as real <= 1.0 + ms as real / 60_000.0)
  {
    var (p, key) := (RatePolicy(d, s.cfg).value, BucketKey(subject, v));
    RatePolicyIsSound(d, s.cfg);
    PassedIsCovered(y, s, actions, |actions|, subject, v, d, from);
    LB.ScriptKeepsRange(p, Bucket(y.redis, key), from, 0);
    LB.ScriptKeepsRange(p, Bucket(At(y, s, actions, |actions|).redis, key), Clock(actions, |actions|, from), 0);
    CapInSeconds(d, s.cfg, PassedIn(y, s, actions, |actions|, subject, v), Forward(actions, |actions|, from));
  }

  /** The filters read the clock in order, between `from` and `to`. */
  predicate Ordered(actions: seq<Action>, from: int, to: int) {
    forall k: nat :: k < |actions| && actions[k].Do? && actions[k].op.Filters? ==> Clock(actions, k, from) <= actions[k].op.now <= to
  }

  lemma {:induction false} OrderedMovesForward(actions: seq<Action>, k: nat, from: int, to: int)
    requires k <= |actions| && Ordered(actions, from, to) && from <= to
    ensures Forward(actions, k, from) == Clock(actions, k, from) - from && Clock(actions, k, from) <= to
  {
    if k > 0 {
      OrderedMovesForward(actions, k - 1, from, to);
    }
  }

  /** In a window of the run, with a clock that does not step back: counted views,
      but for those already on their way at its start, obey the cap. */
  // Dafny would try induction on the sequence by itself.
  lemma {:induction false} PhysicsCapInWindow(y: System, s: Settings, actions: seq<Action>, subject: Subject, v: Uuid, d: int,
                                             from: int, to: int)
    requires Rated(y, subject, v, d) && d >= MinDuration(s.cfg) && AllWorking(y, s, actions, subject, v)
    requires BucketOk(y.redis, BucketKey(subject, v), RatePolicy(d, s.cfg).value)
    requires from <= to && Ordered(actions, from, to)
    ensures var n := CountedIn(y, s, actions, |actions|, subject, v) - |OnTheWay(y, subject, v)|;
            && (d <= 60 ==> (n * d) as real <= 60.0 + (to - from) as real / 1000.0)
            && (d >= 60 ==> n as real <= 1.0 + (to - from) as real / 60_000.0)
  {
    PhysicsCap(y, s, actions, subject, v, d, from);
    WindowBounds(y, s, actions, subject, v, from, to);
    CapOfFewer(CountedIn(y, s, actions, |actions|, subject, v) - |OnTheWay(y, subject, v)|,
               PassedIn(y, s, actions, |actions|, subject, v), d, Forward(actions, |actions|, from), to - from);
  }

  lemma WindowBounds(y: System, s: Settings, actions: seq<Action>, subject: Subject, v: Uuid, from: int, to: int)
    requires from <= to && Ordered(actions, from, to)
    ensures CountedIn(y, s, actions, |actions|, subject, v) - |OnTheWay(y, subject, v)| <=
            PassedIn(y, s, actions, |actions|, subject, v)
    ensures Forward(actions, |actions|, from) <= to - from
  {
    OrderedMovesForward(actions, |actions|, from, to);
    CountedHavePassed(y, s, actions, |actions|, subject, v);
  }

  lemma CapOfFewer(n: int, m: int, d: int, ms: int, window: int)
    requires n <= m && d >= 1 && ms <= window
    requires d <= 60 ==> (m * d) as real <= 60.0 + ms as real / 1000.0
    requires d >= 60 ==> m as real <= 1.0 + ms as real / 60_000.0
    ensures d <= 60 ==> (n * d) as real <= 60.0 + window as real / 1000.0
    ensures d >= 60 ==> n as real <= 1.0 + window as real / 60_000.0
  {
    assert n * d <= m * d;
  }

  // ----- unique views -----

  function Marker(r: Redis, subject: Subject, v: Uuid): Option<int> {
    var key := UniqueKey(subject, v);
    if key in r.marks then Some(r.marks[key]) else None
  }

  /** The action asks the marker of this pair, and it works. */
  predicate Tries(y: System, a: Action, subject: Subject, v: Uuid) {
    Works(y, a, subject, v) && a.op.Mark? && !a.op.fails
  }

  /** And finds none set, or one that has run out. */
  predicate Sets(y: System, a: Action, subject: Subject, v: Uuid) {
    Tries(y, a, subject, v) && (Marker(y.redis, subject, v).None? || Marker(y.redis, subject, v).value <= a.op.now)
  }

  /** What one action does to one pair's marker: only a call of the pair that asks
      it can set it, and does so, and is told so, exactly when it has run out. */
  lemma StepOnMarker(y: System, s: Settings, a: Action, subject: Subject, v: Uuid)
    ensures var (before, after) := (Marker(y.redis, subject, v), Marker(Step(y, s, a).redis, subject, v));
            && after == (if Sets(y, a, subject, v) then Some(a.op.now + s.uniqueTtlMs) else before)
            && (Tries(y, a, subject, v) ==>
                  Step(y, s, a).calls[a.id].stage == Marked(before.None? || before.value <= a.op.now))
  {
    if a.Do? && a.id in y.calls {
      var c := y.calls[a.id];
      WorkEffects(y.redis, s, c, a.op);
      KeysAreInjective("view:unique:", subject, v, SubjectOf(c.input), c.input.videoId);
    }
  }

  predicate SetsAt(y: System, s: Settings, actions: seq<Action>, i: nat, subject: Subject, v: Uuid)
    requires i < |actions|
  {
    Sets(At(y, s, actions, i), actions[i], subject, v)
  }

  function MarkerAt(y: System, s: Settings, actions: seq<Action>, k: nat, subject: Subject, v: Uuid): Option<int>
    requires k <= |actions|
  {
    Marker(At(y, s, actions, k).redis, subject, v)
  }

  lemma MarkerMoves(y: System, s: Settings, actions: seq<Action>, k: nat, subject: Subject, v: Uuid)
    requires k < |actions|
    ensures SetsAt(y, s, actions, k, subject, v) ==> actions[k].Do? && actions[k].op.Mark?
    ensures MarkerAt(y, s, actions, k + 1, subject, v) ==
            if SetsAt(y, s, actions, k, subject, v) then Some(actions[k].op.now + s.uniqueTtlMs)
            else MarkerAt(y, s, actions, k, subject, v)
    ensures SetsAt(y, s, actions, k, subject, v) && MarkerAt(y, s, actions, k, subject, v).Some? ==>
              MarkerAt(y, s, actions, k, subject, v).value <= actions[k].op.now
  {
    StepOnMarker(At(y, s, actions, k), s, actions[k], subject, v);
  }

  lemma {:induction false} MarkerWasSet(y: System, s: Settings, actions: seq<Action>, j: nat, subject: Subject, v: Uuid)
    returns (i: nat)
    requires j <= |actions| && MarkerAt(y, s, actions, 0, subject, v) == None && MarkerAt(y, s, actions, j, subject, v).Some?
    ensures i < j && SetsAt(y, s, actions, i, subject, v)
    ensures MarkerAt(y, s, actions, j, subject, v) == Some(actions[i].op.now + s.uniqueTtlMs)
  {
    MarkerMoves(y, s, actions, j - 1, subject, v);
    if SetsAt(y, s, actions, j - 1, subject, v) {
      i := j - 1;
    } else {
      i := MarkerWasSet(y, s, actions, j - 1, subject, v);
    }
  }

  lemma {:induction false} MarkerOutlasts(y: System, s: Settings, actions: seq<Action>, i: nat, j: nat, subject: Subject, v: Uuid)
    requires i < j <= |actions| && SetsAt(y, s, actions, i, subject, v)
    ensures var m := MarkerAt(y, s, actions, j, subject, v); m.Some? && m.value >= actions[i].op.now + s.uniqueTtlMs
  {
    MarkerMoves(y, s, actions, j - 1, subject, v);
    if i < j - 1 {
      MarkerOutlasts(y, s, actions, i, j - 1, subject, v);
    }
  }

  /** A call that asks the marker sets it if and only if no earlier setting is
      less than the TTL ago. */
  lemma MarkerDecides(y: System, s: Settings, actions: seq<Action>, j: nat, subject: Subject, v: Uuid)
    requires j < |actions| && MarkerAt(y, s, actions, 0, subject, v) == None && Tries(At(y, s, actions, j), actions[j], subject, v)
    ensures SetsAt(y, s, actions, j, subject, v) <==>
            forall i: nat :: i < j && SetsAt(y, s, actions, i, subject, v) ==>
              actions[j].op.now >= actions[i].op.now + s.uniqueTtlMs
  {
    StepOnMarker(At(y, s, actions, j), s, actions[j], subject, v);
    if MarkerAt(y, s, actions, j, subject, v).Some? {
      var i := MarkerWasSet(y, s, actions, j, subject, v);
    }
    forall i: nat | i < j && SetsAt(y, s, actions, i, subject, v)
      ensures var m := MarkerAt(y, s, actions, j, subject, v); m.Some? && m.value >= actions[i].op.now + s.uniqueTtlMs
    {
      MarkerOutlasts(y, s, actions, i, j, subject, v);
    }
  }

  lemma SettingsAreApart(y: System, s: Settings, actions: seq<Action>, i: nat, j: nat, subject: Subject, v: Uuid)
    requires i < j < |actions| && SetsAt(y, s, actions, i, subject, v) && SetsAt(y, s, actions, j, subject, v)
    ensures actions[j].op.now - actions[i].op.now >= s.uniqueTtlMs
  {
    MarkerOutlasts(y, s, actions, i, j, subject, v);
    MarkerMoves(y, s, actions, j, subject, v);
  }

  /** A call that carries an answer of the marker asked it before. */
  lemma {:induction false} AskedBefore(y: System, s: Settings, actions: seq<Action>, m: nat, id: nat) returns (j: nat)
    requires m <= |actions| && id !in y.calls
    requires var z := At(y, s, actions, m); id in z.calls && z.calls[id].stage.Marked?
    ensures j < m && actions[j].Do? && actions[j].id == id && actions[j].op.Mark?
    ensures var (z, c) := (At(y, s, actions, j), At(y, s, actions, m).calls[id]);
            && Works(z, actions[j], SubjectOf(c.input), c.input.videoId)
            && Step(z, s, actions[j]).calls[id].stage == c.stage
  {
    var z, a := At(y, s, actions, m - 1), actions[m - 1];
    if a.Do? && a.id in z.calls {
      WorkEffects(z.redis, s, z.calls[a.id], a.op);
    }
    if id in z.calls && z.calls[id].stage.Marked? {
      j := AskedBefore(y, s, actions, m - 1, id);
    } else {
      j := m - 1;
    }
  }

  /** The answers of a run, however the calls of all viewers interleave: a counted
      view of a pair is flagged as unique if and only if its question to the
      marker went through and no unique answer for the pair was given less than
      the TTL before.  j is that question. */
  lemma UniqueIff(y: System, s: Settings, actions: seq<Action>, m: nat, subject: Subject, v: Uuid)
    returns (j: nat)
    requires y.calls == map[] && MarkerAt(y, s, actions, 0, subject, v) == None
    requires m < |actions| && Accepts(At(y, s, actions, m), actions[m], subject, v)
    ensures j < m && actions[j].Do? && actions[j].id == actions[m].id && actions[j].op.Mark?
    ensures var out := Step(At(y, s, actions, m), s, actions[m]).calls[actions[m].id].stage;
            && out.Finished? && out.out.Accepted?
            && (out.out.isUnique <==> SetsAt(y, s, actions, j, subject, v))
            && (out.out.isUnique <==>
                  !actions[j].op.fails && forall i: nat :: i < j && SetsAt(y, s, actions, i, subject, v) ==>
                    actions[j].op.now >= actions[i].op.now + s.uniqueTtlMs)
  {
    j := AskedBefore(y, s, actions, m, actions[m].id);
    if !actions[j].op.fails {
      MarkerDecides(y, s, actions, j, subject, v);
    }
  }

  /** The action counts a view of the pair and flags it as unique. */
  predicate CountsUnique(y: System, s: Settings, actions: seq<Action>, m: nat, subject: Subject, v: Uuid)
    requires m < |actions|
  {
    var z := At(y, s, actions, m);
    Accepts(z, actions[m], subject, v) && z.calls[actions[m].id].stage == Marked(true)
  }

  lemma UniqueHasSet(y: System, s: Settings, actions: seq<Action>, m: nat, subject: Subject, v: Uuid) returns (i: nat)
    requires y.calls == map[] && m < |actions| && CountsUnique(y, s, actions, m, subject, v)
    ensures i < m && SetsAt(y, s, actions, i, subject, v) && actions[i].Do? && actions[i].id == actions[m].id
  {
    i := AskedBefore(y, s, actions, m, actions[m].id);
    if actions[i].op.fails {
      WorkEffects(At(y, s, actions, i).redis, s, At(y, s, actions, i).calls[actions[i].id], actions[i].op);
    }
  }

  /** So two views of one pair counted as unique asked the marker at least the TTL
      apart. */
  lemma UniqueViewsAreApart(y: System, s: Settings, actions: seq<Action>, m: nat, n: nat, subject: Subject, v: Uuid)
    returns (i: nat, j: nat)
    requires y.calls == map[] && m < |actions| && n < |actions| && actions[m].Do? && actions[n].Do?
    requires CountsUnique(y, s, actions, m, subject, v) && CountsUnique(y, s, actions, n, subject, v)
    requires actions[m].id != actions[n].id
    ensures i < m && SetsAt(y, s, actions, i, subject, v) && actions[i].Do? && actions[i].id == actions[m].id
    ensures j < n && SetsAt(y, s, actions, j, subject, v) && actions[j].Do? && actions[j].id == actions[n].id
    ensures i < j ==> actions[j].op.now - actions[i].op.now >= s.uniqueTtlMs
    ensures j < i ==> actions[i].op.now - actions[j].op.now >= s.uniqueTtlMs
    ensures i != j
  {
    i := UniqueHasSet(y, s, actions, m, subject, v);
    j := UniqueHasSet(y, s, actions, n, subject, v);
    if i < j {
      SettingsAreApart(y, s, actions, i, j, subject, v);
    } else if j < i {
      SettingsAreApart(y, s, actions, j, i, subject, v);
    }
  }
}
