/** Duration-aware view rules: the watch threshold and the bucket policy sized
    from the video length. */
module ViewPolicy {
  import opened Common
  import opened LeakyBucket
  import opened BucketErasure

  datatype Config = Config(minDurationSec: int, unknownMinWatchMs: int)

  function MinDuration(cfg: Config): int {
    if cfg.minDurationSec <= 0 then 5 else cfg.minDurationSec
  }

  function RequiredWatchMs(d: int, cfg: Config): int {
    if d <= 0 || d < MinDuration(cfg) then cfg.unknownMinWatchMs
    else Max((d * 1000) / 3, 1)
  }

  function RatePolicy(d: int, cfg: Config): Option<Policy> {
    if d < MinDuration(cfg) then None
    else
      var perMin := Max(60 / d, 1);
      Some(Policy(perMin, perMin as real / 60.0, 3600))
  }

  /** For a rated length the threshold lets a view pass exactly when one more
      millisecond would be over a third of the video. */
  lemma ThresholdIsAThird(d: int, cfg: Config, watchMs: int)
    requires d >= MinDuration(cfg)
    ensures watchMs >= RequiredWatchMs(d, cfg) <==> 3 * (watchMs + 1) > 1000 * d
  {}

  /** Whenever a bucket applies there is no division by zero, the policy is
      valid, it admits at least one view, and evicting its idle bucket cannot be
      observed. */
  lemma RatePolicyIsSound(d: int, cfg: Config)
    ensures RatePolicy(d, cfg).None? <==> d < if cfg.minDurationSec <= 0 then 5 else cfg.minDurationSec
    ensures RatePolicy(d, cfg).Some? ==>
              var p := RatePolicy(d, cfg).value;
              d >= 1 && Valid(p) && p.capacity >= 1 && EvictionUnobservable(p)
              && TtlMs(p) == 60 * 60_000 && p.capacity as real <= Leak(p, TtlMs(p))
              && Leak(p, 60_000) == p.capacity as real
              && (d <= 60 ==> p.capacity == 60 / d && p.capacity * d <= 60)
              && (d >= 60 ==> p.capacity == 1)
  {
    if RatePolicy(d, cfg).Some? {
      var p := RatePolicy(d, cfg).value;
      if d >= 60 {
        assert 60 / d <= 1;
      }
      assert Leak(p, TtlMs(p)) == 60.0 * p.capacity as real;
      EvictionUnobservableIff(p);
    }
  }

  /** From views over a window of `ms` milliseconds to the physics cap. */
  lemma CapInSeconds(d: int, cfg: Config, views: int, ms: int)
    requires RatePolicy(d, cfg).Some? && views >= 0 && ms >= 0
    requires var p := RatePolicy(d, cfg).value; views as real <= p.capacity as real + Leak(p, ms)
    ensures d <= 60 ==> (views * d) as real <= 60.0 + ms as real / 1000.0
    ensures d >= 60 ==> views as real <= 1.0 + ms as real / 60_000.0
  {
    RatePolicyIsSound(d, cfg);
    var p := RatePolicy(d, cfg).value;
    LeakInMinutes(p, ms);
    if d <= 60 {
      ScaleBound(views, p.capacity, d, ms as real / 60_000.0);
    }
  }

  lemma LeakInMinutes(p: Policy, ms: int)
    requires p.leakPerSecond == p.capacity as real / 60.0
    ensures Leak(p, ms) == (ms as real / 60_000.0) * p.capacity as real
  {}

  lemma Scaled(a: real, b: real, k: real)
    requires a <= b && k >= 0.0
    ensures a * k <= b * k
  {}

  lemma ScaleBound(views: int, capacity: int, d: int, minutes: real)
    requires views as real <= capacity as real + minutes * capacity as real
    requires capacity * d <= 60 && d >= 0 && minutes >= 0.0
    ensures (views * d) as real <= 60.0 + 60.0 * minutes
  {
    var n, c, e, k := views as real, capacity as real, d as real, (capacity * d) as real;
    calc {
      (views * d) as real;
      n * e;
    <= { Scaled(n, c + minutes * c, e); }
      (c + minutes * c) * e;
      c * e + minutes * (c * e);
      k + minutes * k;
      k + k * minutes;
    <= { Scaled(k, 60.0, minutes); }
      60.0 + 60.0 * minutes;
    }
  }

  // ----- views in one minute -----

  /** No run of single views within one minute gets more than the capacity
      through, whatever the bucket held before. */
  ghost predicate CapsEveryMinute(p: Policy)
    requires Valid(p)
  {
    forall b: Bucket, calls: seq<Call> ::
      InRange(p, b) && Monotone(b, calls) && WithinAMinute(calls) ==> AdmittedFrom(p, b, calls, 0) <= p.capacity
  }

  predicate WithinAMinute(calls: seq<Call>) {
    && (forall i :: 0 <= i < |calls| ==> calls[i].cost == 1)
    && (calls != [] ==> calls[|calls| - 1].now - calls[0].now < 60_000)
  }

  /** As many views at once as the bucket holds, and one more as soon as there is
      room again. */
  function Burst(c: nat): (calls: seq<Call>)
    requires c >= 1
    ensures |calls| == c + 1 && calls[c] == Call((60_000 + c - 1) / c, 1)
    ensures forall i :: 0 <= i < c ==> calls[i] == Call(0, 1)
  {
    seq(c, _ => Call(0, 1)) + [Call((60_000 + c - 1) / c, 1)]
  }

  lemma {:induction false} BurstFills(p: Policy, calls: seq<Call>, n: nat)
    requires Valid(p) && n <= p.capacity && n <= |calls| && forall i :: 0 <= i < n ==> calls[i] == Call(0, 1)
    ensures AdmittedFrom(p, Absent, calls[..n], 0) == n
    ensures After(p, Absent, calls[..n]) == if n == 0 then Absent else Present(n as real, 0)
  {
    if n > 0 {
      BurstFills(p, calls, n - 1);
      assert calls[..n][..n - 1] == calls[..n - 1];
      LeakIsMonotone(p, 0, 0);
    }
  }

  /** The moment of the last view of a burst is when one unit has leaked. */
  lemma RoomAgain(p: Policy)
    requires p.capacity >= 1 && p.leakPerSecond == p.capacity as real / 60.0
    ensures Leak(p, (60_000 + p.capacity - 1) / p.capacity) >= 1.0
    ensures p.capacity >= 2 ==> (60_000 + p.capacity - 1) / p.capacity < 60_000
  {
    var c, ms := p.capacity, (60_000 + p.capacity - 1) / p.capacity;
    assert ms * c >= 60_000;
    LeakInMinutes(p, ms);
    assert (ms * c) as real == ms as real * c as real;
    assert ms as real / 60_000.0 * c as real == (ms * c) as real / 60_000.0;
  }

  /** A burst gets one view more than the capacity through, within a minute if
      the capacity is at least two. */
  lemma BurstExceedsCapacity(p: Policy)
    requires Valid(p) && p.capacity >= 1 && p.leakPerSecond == p.capacity as real / 60.0
    ensures AdmittedFrom(p, Absent, Burst(p.capacity), 0) == p.capacity + 1
    ensures Monotone(Absent, Burst(p.capacity))
    ensures p.capacity >= 2 ==> WithinAMinute(Burst(p.capacity))
  {
    var c, calls := p.capacity, Burst(p.capacity);
    BurstFills(p, calls, c);
    RoomAgain(p);
    assert calls[..|calls| - 1] == calls[..c];
  }

  /** The bucket lets no more than its capacity through in any minute if and only
      if the capacity is one, that is, d is over 30. */
  lemma CapsEveryMinuteIff(d: int, cfg: Config)
    requires RatePolicy(d, cfg).Some?
    ensures Valid(RatePolicy(d, cfg).value)
    ensures CapsEveryMinute(RatePolicy(d, cfg).value) <==> d > 30
  {
    RatePolicyIsSound(d, cfg);
    var p := RatePolicy(d, cfg).value;
    assert p.capacity >= 2 <==> d <= 30;
    if d > 30 {
      forall b: Bucket, calls: seq<Call> | InRange(p, b) && Monotone(b, calls) && WithinAMinute(calls)
        ensures AdmittedFrom(p, b, calls, 0) <= p.capacity
      {
        if calls != [] {
          WindowBound(p, b, calls);
          LeakInMinutes(p, calls[|calls| - 1].now - calls[0].now);
        }
      }
    } else {
      BurstExceedsCapacity(p);
    }
  }

  // ----- the promised cap -----

  /** The views counted in any minute take at most a minute to watch in full. */
  ghost predicate CountsWatchableViews(p: Policy, d: int)
    requires Valid(p)
  {
    forall b: Bucket, calls: seq<Call> ::
      InRange(p, b) && Monotone(b, calls) && WithinAMinute(calls) ==> AdmittedFrom(p, b, calls, 0) * d <= 60
  }

  /** Rounding down: one view more than 60/d is over a minute. */
  lemma OneViewTooMany(d: int)
    requires d >= 1
    ensures (60 / d + 1) * d > 60
  {
    assert 60 == (60 / d) * d + 60 % d;
  }

  lemma PlaysAreOrdered(n: nat, e: int)
    requires e >= 1
    ensures Monotone(Absent, Plays(n, e))
  {
    PlaysAreFull(n, e);
    forall i, j | 0 <= i < j < n
      ensures Plays(n, e)[i].now <= Plays(n, e)[j].now
    {
      FullPlaysAreMonotone(Plays(n, e), e, i, j);
    }
  }

  /** Views that come no faster than one unit leaks all get through. */
  lemma SlowViewsGetThrough(p: Policy, e: int, n: nat)
    requires Valid(p) && p.capacity >= 1 && e >= 1 && Leak(p, e * 1000) >= 1.0
    ensures AdmittedFrom(p, Absent, Plays(n, e), 0) == n
  {
    var calls := Plays(n, e);
    PlaysAreFull(n, e);
    forall i: nat | i < n
      ensures Allowed(p, Absent, calls, i)
    {
      RoomAfterAFullPlay(p, e, calls, i);
    }
    AllAllowedCounts(p, calls, n);
    assert calls[..n] == calls;
  }

  lemma LongerThanAMinute(n: nat, d: int)
    requires d > 60 && n >= 1
    ensures n * d > 60 * n
  {}

  /** Over a minute long, one view is more than a minute holds, and the bucket lets
      one through every minute, for ever: n views in the n - 1 minutes of a run,
      though they take more than n minutes to watch. */
  lemma LongVideosExceedTheMinute(d: int, cfg: Config, n: nat)
    requires RatePolicy(d, cfg).Some? && d > 60 && n >= 1
    ensures var p := RatePolicy(d, cfg).value;
            && Valid(p) && Monotone(Absent, Plays(n, 60)) && Plays(n, 60)[n - 1].now == (n - 1) * 60_000
            && AdmittedFrom(p, Absent, Plays(n, 60), 0) == n && n * d > 60 * n
  {
    RatePolicyIsSound(d, cfg);
    PlaysAreOrdered(n, 60);
    SlowViewsGetThrough(RatePolicy(d, cfg).value, 60, n);
    LongerThanAMinute(n, d);
  }

  lemma ShortVideosExceedTheMinute(p: Policy, d: int)
    requires Valid(p) && 1 <= d <= 30 && p.capacity == 60 / d && p.leakPerSecond == p.capacity as real / 60.0
    ensures !CountsWatchableViews(p, d)
  {
    assert p.capacity >= 2;
    BurstExceedsCapacity(p);
    OneViewTooMany(d);
  }

  lemma OneViewIsWatchable(p: Policy, d: int)
    requires Valid(p) && 1 <= d <= 60 && p.capacity == 1 && CapsEveryMinute(p)
    ensures CountsWatchableViews(p, d)
  {
    forall b: Bucket, calls: seq<Call> | InRange(p, b) && Monotone(b, calls) && WithinAMinute(calls)
      ensures AdmittedFrom(p, b, calls, 0) * d <= 60
    {
      AtMostOnce(AdmittedFrom(p, b, calls, 0), d);
    }
  }

  lemma AtMostOnce(n: int, d: int)
    requires n <= 1 && 1 <= d <= 60
    ensures n * d <= 60
  {}

  /** At most 60/d full watches in any minute: true of the bucket of a video of
      length d if and only if d is over 30 and at most 60.  Shorter ones are beaten
      by a burst, longer ones by the capacity of at least one view. */
  lemma CountsWatchableViewsIff(d: int, cfg: Config)
    requires RatePolicy(d, cfg).Some?
    ensures Valid(RatePolicy(d, cfg).value)
    ensures CountsWatchableViews(RatePolicy(d, cfg).value, d) <==> 30 < d <= 60
  {
    RatePolicyIsSound(d, cfg);
    var p := RatePolicy(d, cfg).value;
    if d <= 30 {
      ShortVideosExceedTheMinute(p, d);
    } else if d <= 60 {
      CapsEveryMinuteIff(d, cfg);
      OneViewIsWatchable(p, d);
    } else {
      LongVideosExceedTheMinute(d, cfg, 1);
      assert WithinAMinute(Plays(1, 60));
    }
  }

  // ----- the honest viewer -----

  /** One view per full play of the video, back to back or slower. */
  predicate FullPlays(calls: seq<Call>, d: int) {
    && (forall i :: 0 <= i < |calls| ==> calls[i].cost == 1)
    && (forall i :: 0 < i < |calls| ==> calls[i].now >= calls[i - 1].now + d * 1000)
  }

  ghost predicate HonestViewerAlwaysCounts(p: Policy, d: int)
    requires Valid(p)
  {
    forall calls: seq<Call> :: FullPlays(calls, d) ==> AllAllowed(p, Absent, calls)
  }

  lemma {:induction false} FullPlaysAreMonotone(calls: seq<Call>, d: int, i: nat, j: nat)
    requires FullPlays(calls, d) && d >= 0 && i <= j < |calls|
    ensures calls[i].now <= calls[j].now
  {
    if i < j {
      FullPlaysAreMonotone(calls, d, i, j - 1);
    }
  }

  /** If a full play leaks at least one unit, there is always room for the next. */
  lemma {:induction false} RoomAfterAFullPlay(p: Policy, d: int, calls: seq<Call>, i: nat)
    requires Valid(p) && p.capacity >= 1 && d >= 1 && Leak(p, d * 1000) >= 1.0
    requires FullPlays(calls, d) && i < |calls|
    ensures Allowed(p, Absent, calls, i)
  {
    if i == 0 {
      assert calls[..0] == [];
    } else {
      RoomAfterAFullPlay(p, d, calls, i - 1);
      var c, s := calls[i - 1], After(p, Absent, calls[..i - 1]);
      assert calls[..i][..i - 1] == calls[..i - 1];
      assert After(p, Absent, calls[..i]) == Script(p, s, c.now, 1).0;
      LeakIsMonotone(p, d * 1000, calls[i].now - c.now);
    }
  }

  function Plays(n: nat, d: int): (calls: seq<Call>)
    ensures |calls| == n && forall i :: 0 <= i < n ==> calls[i] == Call(i * d * 1000, 1)
  {
    seq(n, (i: nat) => Call(i * d * 1000, 1))
  }

  lemma PlaysAreFull(n: nat, d: int)
    requires d >= 1
    ensures FullPlays(Plays(n, d), d)
  {
    forall i | 0 < i < n
      ensures Plays(n, d)[i].now >= Plays(n, d)[i - 1].now + d * 1000
    {
      assert i * d == (i - 1) * d + d;
    }
  }

  lemma {:induction false} AllAllowedCounts(p: Policy, calls: seq<Call>, n: nat)
    requires Valid(p) && n <= |calls| && AllAllowed(p, Absent, calls)
    requires forall i :: 0 <= i < |calls| ==> calls[i].cost == 1
    ensures AdmittedFrom(p, Absent, calls[..n], 0) == n
  {
    if n > 0 {
      AllAllowedCounts(p, calls, n - 1);
      assert calls[..n][..n - 1] == calls[..n - 1];
      assert Allowed(p, Absent, calls, n - 1);
    }
  }

  /** What leaks over 60 * capacity full plays. */
  lemma LeakOverPlays(p: Policy, d: int)
    requires p.capacity >= 0 && Leak(p, 60_000) == p.capacity as real && p.capacity * d <= 59
    ensures Leak(p, 60 * p.capacity * d * 1000) <= 59.0 * p.capacity as real
  {
    var k, c, r := p.capacity * d, p.capacity as real, p.leakPerSecond;
    assert 60 * p.capacity * d * 1000 == k * 60_000;
    assert (k * 60_000) as real / 1000.0 == k as real * 60.0;
    assert k as real * 60.0 * r == k as real * (60.0 * r);
    assert k as real * c <= 59.0 * c;
  }

  /** If a full play leaks less than one unit, enough full plays in a row would
      exceed the window bound, so one of them is refused. */
  lemma SomePlayIsRefused(p: Policy, d: int)
    requires Valid(p) && p.capacity >= 1 && d >= 1 && Leak(p, 60_000) == p.capacity as real && p.capacity * d <= 59
    ensures !HonestViewerAlwaysCounts(p, d)
  {
    var n := 60 * p.capacity + 1;
    var calls := Plays(n, d);
    PlaysAreFull(n, d);
    LeakOverPlays(p, d);
    assert calls[n - 1].now - calls[0].now == 60 * p.capacity * d * 1000;
    if AllAllowed(p, Absent, calls) {
      AllAllowedCounts(p, calls, n);
      assert calls[..n] == calls;
      forall i, j | 0 <= i < j < n
        ensures calls[i].now <= calls[j].now
      {
        FullPlaysAreMonotone(calls, d, i, j);
      }
      WindowBound(p, Absent, calls);
    }
  }

  /** A viewer who plays the whole video again and again, back to back, has
      every view counted exactly when the length divides a minute or is at least
      a minute; for any other length an honest replay is eventually refused,
      because 60/d is rounded down. */
  lemma HonestViewerAlwaysCountsIff(d: int, cfg: Config)
    requires RatePolicy(d, cfg).Some?
    ensures Valid(RatePolicy(d, cfg).value)
    ensures HonestViewerAlwaysCounts(RatePolicy(d, cfg).value, d) <==> d >= 60 || 60 % d == 0
  {
    RatePolicyIsSound(d, cfg);
    var p := RatePolicy(d, cfg).value;
    if d >= 60 || 60 % d == 0 {
      assert p.capacity * d >= 60 by {
        if d < 60 { assert 60 == (60 / d) * d + 60 % d; }
      }
      assert Leak(p, d * 1000) >= 1.0 by {
        var c := p.capacity as real;
        assert Leak(p, d * 1000) == d as real * (c / 60.0);
        assert (p.capacity * d) as real == c * d as real;
      }
      forall calls: seq<Call>, i: nat | FullPlays(calls, d) && i < |calls|
        ensures Allowed(p, Absent, calls, i)
      {
        RoomAfterAFullPlay(p, d, calls, i);
      }
    } else {
      assert p.capacity * d <= 59 by {
        assert 60 == (60 / d) * d + 60 % d;
      }
      SomePlayIsRefused(p, d);
    }
  }
}
