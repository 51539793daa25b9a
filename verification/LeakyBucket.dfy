/** The leaky-bucket script: one atomic read, leak, add, store on a hash with an
    idle expiry.  Levels are exact reals, times are milliseconds. */
module LeakyBucket {
  import opened Common

  /** A policy as the script receives it; a leak rate is positive. */
  datatype Policy = Policy(capacity: int, leakPerSecond: real, ttlSeconds: int)

  predicate Valid(p: Policy) {
    p.capacity >= 0 && p.leakPerSecond > 0.0
  }

  /** Allow replaces a non-positive TTL by an hour. */
  function TtlMs(p: Policy): int {
    (if p.ttlSeconds <= 0 then 3600 else p.ttlSeconds) * 1000
  }

  /** The hash at a key, or no key. */
  datatype Bucket = Absent | Present(level: real, lastMs: int)

  datatype Reply = Reply(allowed: bool, remaining: int, retryAfterMs: int)

  function MaxR(a: real, b: real): real {
    if a < b then b else a
  }

  function Ceil(x: real): int {
    -((-x).Floor)
  }

  /** What leaks in the given time. */
  function Leak(p: Policy, ms: int): real {
    (ms as real / 1000.0) * p.leakPerSecond
  }

  /** The level the script sees at `now`; a clock that stepped back leaks
      nothing. */
  function LevelAt(p: Policy, b: Bucket, now: int): real {
    match b
    case Absent => 0.0
    case Present(level, last) => MaxR(0.0, level - Leak(p, Max(0, now - last)))
  }

  predicate Fits(p: Policy, b: Bucket, now: int, cost: int) {
    LevelAt(p, b, now) + cost as real <= p.capacity as real
  }

  function Script(p: Policy, b: Bucket, now: int, cost: int): (Bucket, Reply)
    requires Valid(p)
  {
    var level := LevelAt(p, b, now);
    var newLevel := level + cost as real;
    var allowed := newLevel <= p.capacity as real;
    var stored := if allowed then newLevel else level;
    var retry := if allowed then 0 else Ceil((newLevel - p.capacity as real) / p.leakPerSecond * 1000.0);
    (Present(stored, now), Reply(allowed, MaxR(0.0, p.capacity as real - stored).Floor, retry))
  }

  /** The script's own answer to a call. */
  predicate Admits(p: Policy, b: Bucket, now: int, cost: int)
    requires Valid(p)
  {
    Script(p, b, now, cost).1.allowed
  }

  /** The reply and the stored hash in terms of the level found: the call is
      allowed if and only if it fits, only then is it charged, there is something
      to wait for only if it was refused, and what is left is what the stored level
      leaves of the capacity, in whole units. */
  lemma ScriptReplies(p: Policy, b: Bucket, now: int, cost: int)
    requires Valid(p)
    ensures var (after, r) := Script(p, b, now, cost);
            && (r.allowed <==> Fits(p, b, now, cost))
            && after.Present? && after.lastMs == now
            && after.level == LevelAt(p, b, now) + (if Fits(p, b, now, cost) then cost as real else 0.0)
            && (r.allowed ==> r.retryAfterMs == 0)
            && (after.level <= p.capacity as real ==>
                  r.remaining as real <= p.capacity as real - after.level < r.remaining as real + 1.0)
            && (after.level > p.capacity as real ==> r.remaining == 0)
  {}

  /** A key is gone once its expiry is reached. */
  function Lookup(hashes: map<string, Bucket>, expiry: map<string, int>, key: string, now: int): Bucket {
    if key in hashes && key in expiry && now < expiry[key] then hashes[key] else Absent
  }

  /** The bucket store: hashes and their expiry times. */
  class Store {
    var hashes: map<string, Bucket>
    var expiry: map<string, int>

    constructor ()
      ensures hashes == map[] && expiry == map[]
    {
      hashes, expiry := map[], map[];
    }

    /** LeakyBucket.Allow: the script on one key; no other key is touched. */
    method Allow(key: string, p: Policy, now: int, cost: int) returns (r: Reply)
      requires Valid(p)
      modifies this
      ensures hashes == old(hashes)[key := Script(p, Lookup(old(hashes), old(expiry), key, now), now, cost).0]
      ensures expiry == old(expiry)[key := now + (if p.ttlSeconds <= 0 then 3600 else p.ttlSeconds) * 1000]
      ensures r.allowed <==> Fits(p, Lookup(old(hashes), old(expiry), key, now), now, cost)
      ensures r == Script(p, Lookup(old(hashes), old(expiry), key, now), now, cost).1
    {
      var data := Lookup(hashes, expiry, key, now);
      var level, last := 0.0, now;
      if data.Present? {
        level, last := data.level, data.lastMs;
      }
      var elapsed := Max(0, now - last);
      var leaked := Leak(p, elapsed);
      level := MaxR(0.0, level - leaked);
      var newLevel := level + cost as real;
      var allowed, retry := false, 0;
      if newLevel <= p.capacity as real {
        level := newLevel;
        allowed := true;
      } else {
        retry := Ceil((newLevel - p.capacity as real) / p.leakPerSecond * 1000.0);
      }
      hashes := hashes[key := Present(level, now)];
      expiry := expiry[key := now + TtlMs(p)];
      r := Reply(allowed, MaxR(0.0, p.capacity as real - level).Floor, retry);
    }
  }

  // ----- leaking -----

  lemma LeakSums(p: Policy, a: int, b: int)
    ensures Leak(p, a + b) == Leak(p, a) + Leak(p, b)
  {}

  lemma LeakIsMonotone(p: Policy, a: int, b: int)
    requires Valid(p) && a <= b
    ensures Leak(p, a) <= Leak(p, b) && Leak(p, 0) == 0.0
  {
    LeakSums(p, a, b - a);
    assert (b - a) as real / 1000.0 >= 0.0;
  }

  /** Lazy leaks compose: a bucket restamped at t (a rejected call, a call of
      cost 0) has the same level as the untouched one from t on, and a level
      never falls faster than the leak rate. */
  lemma LeaksCompose(p: Policy, b: Bucket, t: int, u: int)
    requires Valid(p) && t <= u
    requires b.Present? ==> b.lastMs <= t
    ensures LevelAt(p, Present(LevelAt(p, b, t), t), u) == LevelAt(p, b, u)
    ensures LevelAt(p, b, u) >= LevelAt(p, b, t) - Leak(p, u - t)
  {
    LeakIsMonotone(p, 0, u - t);
    if b.Present? {
      LeakSums(p, t - b.lastMs, u - t);
    }
  }

  /** The stored level is in [0, capacity] whatever the clock does. */
  predicate InRange(p: Policy, b: Bucket) {
    b.Present? ==> 0.0 <= b.level <= p.capacity as real
  }

  lemma ScriptKeepsRange(p: Policy, b: Bucket, now: int, cost: int)
    requires Valid(p) && InRange(p, b) && cost >= 0
    ensures InRange(p, Script(p, b, now, cost).0)
    ensures 0.0 <= LevelAt(p, b, now) <= p.capacity as real
    ensures var r := Script(p, b, now, cost).1; 0 <= r.remaining <= p.capacity && r.retryAfterMs >= 0
  {
    if b.Present? {
      LeakIsMonotone(p, 0, Max(0, now - b.lastMs));
    }
    var x := LevelAt(p, b, now) + cost as real - p.capacity as real;
    if x > 0.0 {
      assert x / p.leakPerSecond * 1000.0 > 0.0;
    }
  }

  // ----- runs on one key -----

  datatype Call = Call(now: int, cost: int)

  function After(p: Policy, b: Bucket, calls: seq<Call>): Bucket
    requires Valid(p)
  {
    if calls == [] then b
    else
      var c := calls[|calls| - 1];
      Script(p, After(p, b, calls[..|calls| - 1]), c.now, c.cost).0
  }

  predicate Allowed(p: Policy, b: Bucket, calls: seq<Call>, i: nat)
    requires Valid(p) && i < |calls|
  {
    Admits(p, After(p, b, calls[..i]), calls[i].now, calls[i].cost)
  }

  /** The total cost admitted among the calls from index j on. */
  function AdmittedFrom(p: Policy, b: Bucket, calls: seq<Call>, j: nat): int
    requires Valid(p) && j <= |calls|
    decreases |calls|
  {
    if j == |calls| then 0
    else
      var n := |calls| - 1;
      AdmittedFrom(p, b, calls[..n], j) + if Allowed(p, b, calls, n) then calls[n].cost else 0
  }

  predicate Costs(calls: seq<Call>) {
    forall i :: 0 <= i < |calls| ==> calls[i].cost >= 0
  }

  /** The clock never steps back, from the last stamp of b on. */
  predicate Monotone(b: Bucket, calls: seq<Call>) {
    && (forall i, j :: 0 <= i < j < |calls| ==> calls[i].now <= calls[j].now)
    && (b.Present? ==> forall i :: 0 <= i < |calls| ==> b.lastMs <= calls[i].now)
  }

  /** The sum of all forward clock movements over the run. */
  function Advances(b: Bucket, calls: seq<Call>): int {
    if calls == [] then 0
    else
      var n := |calls| - 1;
      var previous := if n > 0 then calls[n - 1].now else if b.Present? then b.lastMs else calls[0].now;
      Advances(b, calls[..n]) + Max(0, calls[n].now - previous)
  }

  function StoredLevel(b: Bucket): real {
    if b.Present? then b.level else 0.0
  }

  lemma {:induction false} AfterFacts(p: Policy, b: Bucket, calls: seq<Call>)
    requires Valid(p) && InRange(p, b) && Costs(calls)
    ensures InRange(p, After(p, b, calls))
    ensures calls != [] ==> After(p, b, calls).Present? && After(p, b, calls).lastMs == calls[|calls| - 1].now
  {
    if calls != [] {
      var n := |calls| - 1;
      AfterFacts(p, b, calls[..n]);
      ScriptKeepsRange(p, After(p, b, calls[..n]), calls[n].now, calls[n].cost);
    }
  }

  /** Over any run, also with a clock that steps back, what is admitted fits in
      the free capacity plus the leak over the forward clock movements. */
  lemma {:induction false} AdmissionBound(p: Policy, b: Bucket, calls: seq<Call>)
    requires Valid(p) && InRange(p, b) && Costs(calls)
    ensures AdmittedFrom(p, b, calls, 0) as real <=
            StoredLevel(After(p, b, calls)) - StoredLevel(b) + Leak(p, Advances(b, calls))
    ensures AdmittedFrom(p, b, calls, 0) as real <=
            p.capacity as real - StoredLevel(b) + Leak(p, Advances(b, calls))
  {
    AfterFacts(p, b, calls);
    if calls == [] {
      LeakIsMonotone(p, 0, 0);
    } else {
      var n := |calls| - 1;
      var before, c := calls[..n], calls[n];
      AdmissionBound(p, b, before);
      AfterFacts(p, b, before);
      var s := After(p, b, before);
      var previous := if n > 0 then calls[n - 1].now else if b.Present? then b.lastMs else calls[0].now;
      var step := Max(0, c.now - previous);
      LeakSums(p, Advances(b, before), step);
      LeakIsMonotone(p, 0, step);
      assert s.Present? ==> s.lastMs == previous;
      assert LevelAt(p, s, c.now) >= StoredLevel(s) - Leak(p, step);
    }
  }

  lemma {:induction false} AdvancesOfMonotone(b: Bucket, calls: seq<Call>)
    requires Monotone(b, calls) && calls != []
    ensures Advances(b, calls) == calls[|calls| - 1].now - if b.Present? then b.lastMs else calls[0].now
  {
    var n := |calls| - 1;
    if n == 0 {
      assert calls[..0] == [];
    } else {
      AdvancesOfMonotone(b, calls[..n]);
    }
  }

  /** With a clock that never steps back the bound is capacity plus leak over
      the window the calls span. */
  // Dafny would try induction on the sequence by itself.
  lemma {:induction false} WindowBound(p: Policy, b: Bucket, calls: seq<Call>)
    requires Valid(p) && InRange(p, b) && Costs(calls) && calls != [] && Monotone(b, calls)
    ensures AdmittedFrom(p, b, calls, 0) as real <=
            p.capacity as real + Leak(p, calls[|calls| - 1].now - calls[0].now)
  {
    var c := calls[0].now;
    var b' := Present(LevelAt(p, b, c), c);
    ScriptKeepsRange(p, b, c, 0);
    Restamp(p, b, calls);
    AdmissionBound(p, b', calls);
    AdvancesOfMonotone(b', calls);
  }

  /** Restamping the bucket at the first call changes nothing in the run. */
  lemma {:induction false} Restamp(p: Policy, b: Bucket, calls: seq<Call>)
    requires Valid(p) && calls != [] && Monotone(b, calls)
    ensures var b' := Present(LevelAt(p, b, calls[0].now), calls[0].now);
            After(p, b', calls) == After(p, b, calls) && AdmittedFrom(p, b', calls, 0) == AdmittedFrom(p, b, calls, 0)
  {
    var n := |calls| - 1;
    var b' := Present(LevelAt(p, b, calls[0].now), calls[0].now);
    if n == 0 {
      assert calls[..0] == [];
      LeaksCompose(p, b, calls[0].now, calls[0].now);
    } else {
      Restamp(p, b, calls[..n]);
    }
  }

  // ----- admission is exactly conformance to every window -----

  /** A call of the given cost at `now` would respect every window that starts
      at an earlier call and ends now. */
  predicate Conforms(p: Policy, calls: seq<Call>, now: int, cost: int)
    requires Valid(p)
  {
    && cost <= p.capacity
    && forall j :: 0 <= j < |calls| ==>
      AdmittedFrom(p, Absent, calls, j) as real + cost as real <= p.capacity as real + Leak(p, now - calls[j].now)
  }

  /** The level is at least what any window left behind ... */
  lemma {:induction false} LevelCoversWindows(p: Policy, calls: seq<Call>, now: int, j: nat)
    requires Valid(p) && Costs(calls) && Monotone(Absent, calls) && j < |calls|
    requires calls[|calls| - 1].now <= now
    ensures LevelAt(p, After(p, Absent, calls), now) >=
            AdmittedFrom(p, Absent, calls, j) as real - Leak(p, now - calls[j].now)
  {
    var n := |calls| - 1;
    var c, s := calls[n], After(p, Absent, calls[..n]);
    AfterFacts(p, Absent, calls);
    LeaksCompose(p, After(p, Absent, calls), c.now, now);
    assert LevelAt(p, After(p, Absent, calls), c.now) == After(p, Absent, calls).level by {
      LeakIsMonotone(p, 0, 0);
    }
    LeakSums(p, c.now - calls[j].now, now - c.now);
    LeakIsMonotone(p, 0, c.now - calls[j].now);
    AfterFacts(p, Absent, calls[..n]);
    ScriptKeepsRange(p, s, c.now, c.cost);
    if j < n {
      LevelCoversWindows(p, calls[..n], c.now, j);
    } else {
      assert AdmittedFrom(p, Absent, calls[..n], j) == 0;
    }
  }

  /** ... and is zero or exactly what some window left behind. */
  lemma {:induction false} LevelIsAWindow(p: Policy, calls: seq<Call>, now: int)
    requires Valid(p) && Costs(calls) && Monotone(Absent, calls)
    requires calls != [] ==> calls[|calls| - 1].now <= now
    ensures LevelAt(p, After(p, Absent, calls), now) == 0.0 ||
            exists j :: 0 <= j < |calls| && LevelAt(p, After(p, Absent, calls), now) ==
              AdmittedFrom(p, Absent, calls, j) as real - Leak(p, now - calls[j].now)
  {
    if calls != [] {
      var n := |calls| - 1;
      var c, before := calls[n], calls[..n];
      AfterFacts(p, Absent, calls);
      var level := After(p, Absent, calls).level;
      LevelIsAWindow(p, before, c.now);
      if LevelAt(p, After(p, Absent, calls), now) > 0.0 {
        assert LevelAt(p, After(p, Absent, calls), now) == level - Leak(p, now - c.now);
        if LevelAt(p, After(p, Absent, before), c.now) == 0.0 {
          assert AdmittedFrom(p, Absent, before, n) == 0;
          assert level == AdmittedFrom(p, Absent, calls, n) as real;
        } else {
          var j :| 0 <= j < n && LevelAt(p, After(p, Absent, before), c.now) ==
            AdmittedFrom(p, Absent, before, j) as real - Leak(p, c.now - before[j].now);
          assert level == AdmittedFrom(p, Absent, calls, j) as real - Leak(p, c.now - calls[j].now);
          LeakSums(p, c.now - calls[j].now, now - c.now);
          assert c.now - calls[j].now + (now - c.now) == now - calls[j].now;
        }
      }
    }
  }

  /** On a fresh bucket and a clock that never steps back, the single number the
      script keeps decides exactly as if it checked every sliding window: a call
      is admitted if and only if no window from an earlier call to now would
      exceed capacity plus its leak. */
  lemma AdmittedIffConforms(p: Policy, calls: seq<Call>, now: int, cost: int)
    requires Valid(p) && Costs(calls) && Monotone(Absent, calls) && cost >= 0
    requires calls != [] ==> calls[|calls| - 1].now <= now
    ensures Admits(p, After(p, Absent, calls), now, cost) <==> Conforms(p, calls, now, cost)
  {
    AfterFacts(p, Absent, calls);
    ScriptKeepsRange(p, After(p, Absent, calls), now, cost);
    forall j: nat | j < |calls|
      ensures LevelAt(p, After(p, Absent, calls), now) >=
              AdmittedFrom(p, Absent, calls, j) as real - Leak(p, now - calls[j].now)
    {
      LevelCoversWindows(p, calls, now, j);
    }
    LevelIsAWindow(p, calls, now);
  }
}
