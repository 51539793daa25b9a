/** What callers of the leaky bucket can rely on across calls: rejected calls
    leave no trace, eviction of idle keys is invisible, and the retry time of a
    rejection is exact. */
module BucketErasure {
  import opened Common
  import opened LeakyBucket

  /** The run without its rejected calls. */
  function Erase(p: Policy, b: Bucket, calls: seq<Call>): seq<Call>
    requires Valid(p)
  {
    if calls == [] then []
    else
      var n := |calls| - 1;
      var kept := Erase(p, b, calls[..n]);
      if Allowed(p, b, calls, n) then kept + [calls[n]] else kept
  }

  ghost predicate AllAllowed(p: Policy, b: Bucket, calls: seq<Call>)
    requires Valid(p)
  {
    forall i: nat :: i < |calls| ==> Allowed(p, b, calls, i)
  }

  lemma {:induction false} StampBound(p: Policy, b: Bucket, calls: seq<Call>, t: int)
    requires Valid(p) && (b.Present? ==> b.lastMs <= t)
    requires forall i :: 0 <= i < |calls| ==> calls[i].now <= t
    ensures var e := After(p, b, Erase(p, b, calls)); e.Present? ==> e.lastMs <= t
    ensures var e := After(p, b, calls); e.Present? ==> e.lastMs <= t
  {
    if calls != [] {
      var n := |calls| - 1;
      StampBound(p, b, calls[..n], t);
      var kept := Erase(p, b, calls[..n]);
      assert (kept + [calls[n]])[..|kept|] == kept;
    }
  }

  lemma AllAllowedSnoc(p: Policy, b: Bucket, calls: seq<Call>, c: Call)
    requires Valid(p) && AllAllowed(p, b, calls)
    requires Admits(p, After(p, b, calls), c.now, c.cost)
    ensures AllAllowed(p, b, calls + [c])
    ensures AdmittedFrom(p, b, calls + [c], 0) == AdmittedFrom(p, b, calls, 0) + c.cost
  {
    assert (calls + [c])[..|calls|] == calls;
    forall i: nat | i < |calls|
      ensures Allowed(p, b, calls + [c], i)
    {
      assert (calls + [c])[..i] == calls[..i];
      assert Allowed(p, b, calls, i);
    }
  }

  /** With a clock that never steps back, deleting every rejected call leaves
      all other decisions, the admitted total and every later level unchanged. */
  lemma {:induction false} RejectionsAreInvisible(p: Policy, b: Bucket, calls: seq<Call>, t: int)
    requires Valid(p) && Monotone(b, calls) && (b.Present? ==> b.lastMs <= t)
    requires forall i :: 0 <= i < |calls| ==> calls[i].now <= t
    ensures LevelAt(p, After(p, b, Erase(p, b, calls)), t) == LevelAt(p, After(p, b, calls), t)
    ensures AllAllowed(p, b, Erase(p, b, calls))
    ensures AdmittedFrom(p, b, Erase(p, b, calls), 0) == AdmittedFrom(p, b, calls, 0)
  {
    if calls != [] {
      var n := |calls| - 1;
      var before, c := calls[..n], calls[n];
      RejectionsAreInvisible(p, b, before, c.now);
      RejectionsAreInvisible(p, b, before, t);
      var kept := Erase(p, b, before);
      StampBound(p, b, before, c.now);
      if Allowed(p, b, calls, n) {
        AllAllowedSnoc(p, b, kept, c);
        assert (kept + [c])[..|kept|] == kept;
        assert After(p, b, kept + [c]) == After(p, b, calls);
      } else {
        LeaksCompose(p, After(p, b, before), c.now, t);
      }
    }
  }

  /** One rejected call changes no later level if and only if the clock had not
      stepped back before it, or there was nothing in the bucket to leak twice. */
  lemma RejectionInvisibleIff(p: Policy, b: Bucket, now: int, cost: int)
    requires Valid(p) && InRange(p, b) && !Admits(p, b, now, cost)
    ensures (forall t :: t >= now ==> LevelAt(p, Script(p, b, now, cost).0, t) == LevelAt(p, b, t)) <==>
            (b.Absent? || b.lastMs <= now || b.level == 0.0)
  {
    var after := Script(p, b, now, cost).0;
    if b.Present? && now < b.lastMs {
      LeakIsMonotone(p, 0, 0);
      assert after == Present(b.level, now);
      if b.level > 0.0 {
        var t := b.lastMs;
        LeakIsMonotone(p, 1, t - now);
        assert Leak(p, 1) > 0.0;
        assert LevelAt(p, b, t) == b.level;
        assert LevelAt(p, after, t) != LevelAt(p, b, t);
      } else {
        forall t | t >= now
          ensures LevelAt(p, after, t) == LevelAt(p, b, t)
        {
          LeakIsMonotone(p, 0, t - now);
          LeakIsMonotone(p, 0, Max(0, t - b.lastMs));
        }
      }
    } else {
      forall t | t >= now
        ensures LevelAt(p, after, t) == LevelAt(p, b, t)
      {
        LeaksCompose(p, b, now, t);
      }
    }
  }

  // ----- idle expiry -----

  /** What a call finds when idle keys are evicted. */
  function Found(p: Policy, b: Bucket, now: int): Bucket {
    if b.Present? && now >= b.lastMs + TtlMs(p) then Absent else b
  }

  function AfterEvicting(p: Policy, calls: seq<Call>): Bucket
    requires Valid(p)
  {
    if calls == [] then Absent
    else
      var c := calls[|calls| - 1];
      Script(p, Found(p, AfterEvicting(p, calls[..|calls| - 1]), c.now), c.now, c.cost).0
  }

  /** All replies of all runs are the same with and without eviction. */
  ghost predicate EvictionUnobservable(p: Policy)
    requires Valid(p)
  {
    forall calls: seq<Call>, now: int, cost: int ::
      Costs(calls) && Monotone(Absent, calls) && cost >= 0 && (forall i :: 0 <= i < |calls| ==> calls[i].now <= now) ==>
        Script(p, Found(p, AfterEvicting(p, calls), now), now, cost).1 == Script(p, After(p, Absent, calls), now, cost).1
  }

  lemma IdleBucketIsEmpty(p: Policy, b: Bucket, now: int)
    requires Valid(p) && InRange(p, b) && p.capacity as real <= Leak(p, TtlMs(p))
    ensures LevelAt(p, Found(p, b, now), now) == LevelAt(p, b, now)
  {
    if b.Present? && now >= b.lastMs + TtlMs(p) {
      LeakIsMonotone(p, TtlMs(p), now - b.lastMs);
    }
  }

  lemma {:induction false} EvictingRunIsTheSame(p: Policy, calls: seq<Call>)
    requires Valid(p) && Costs(calls) && p.capacity as real <= Leak(p, TtlMs(p))
    ensures AfterEvicting(p, calls) == After(p, Absent, calls)
  {
    if calls != [] {
      var n := |calls| - 1;
      EvictingRunIsTheSame(p, calls[..n]);
      AfterFacts(p, Absent, calls[..n]);
      IdleBucketIsEmpty(p, After(p, Absent, calls[..n]), calls[n].now);
    }
  }

  /** Evicting idle buckets is unobservable exactly when a full bucket drains
      within the TTL. */
  lemma EvictionUnobservableIff(p: Policy)
    requires Valid(p)
    ensures EvictionUnobservable(p) <==> p.capacity as real <= Leak(p, TtlMs(p))
  {
    if p.capacity as real <= Leak(p, TtlMs(p)) {
      forall calls: seq<Call>, now: int, cost: int | Costs(calls)
        ensures Script(p, Found(p, AfterEvicting(p, calls), now), now, cost).1 ==
                Script(p, After(p, Absent, calls), now, cost).1
      {
        EvictingRunIsTheSame(p, calls);
        AfterFacts(p, Absent, calls);
        IdleBucketIsEmpty(p, After(p, Absent, calls), now);
      }
    } else {
      LeakIsMonotone(p, 0, TtlMs(p));
      var fill, ttl := [Call(0, p.capacity)], TtlMs(p);
      assert fill[..0] == [];
      assert After(p, Absent, fill) == Present(p.capacity as real, 0);
      assert AfterEvicting(p, fill) == Present(p.capacity as real, 0);
      assert Admits(p, Found(p, AfterEvicting(p, fill), ttl), ttl, p.capacity);
      assert !Admits(p, After(p, Absent, fill), ttl, p.capacity);
      assert Costs(fill) && Monotone(Absent, fill);
      assert Script(p, Found(p, AfterEvicting(p, fill), ttl), ttl, p.capacity).1 !=
             Script(p, After(p, Absent, fill), ttl, p.capacity).1;
    }
  }

  // ----- retry time -----

  lemma CeilBounds(x: real)
    ensures Ceil(x) as real - 1.0 < x <= Ceil(x) as real
  {}

  /** ms of leaking drain `excess` exactly when ms is at least the excess over
      the rate, in milliseconds. */
  lemma DrainsIff(p: Policy, excess: real, ms: int)
    requires Valid(p)
    ensures Leak(p, ms) >= excess <==> ms as real >= excess / p.leakPerSecond * 1000.0
  {
    var r, s := p.leakPerSecond, ms as real / 1000.0;
    var q := excess / r;
    assert q * r == excess;
    assert s >= q ==> s * r >= q * r;
    assert s < q ==> s * r < q * r;
  }

  /** The retry time is exact: if nothing else is admitted meanwhile, the same
      call is admitted from retry_after on and at no earlier millisecond, however
      many rejected calls hit the bucket in between. */
  lemma RetryTimeIsExact(p: Policy, b: Bucket, now: int, cost: int, between: seq<Call>, t: int)
    requires Valid(p) && InRange(p, b) && 0 <= cost <= p.capacity && !Admits(p, b, now, cost)
    requires var b' := Script(p, b, now, cost).0; Monotone(b', between) && Erase(p, b', between) == []
    requires now <= t && forall i :: 0 <= i < |between| ==> between[i].now <= t
    ensures var (b', r) := Script(p, b, now, cost);
            && r.retryAfterMs >= 1
            && (Admits(p, After(p, b', between), t, cost) <==> t >= now + r.retryAfterMs)
  {
    var (b', r) := Script(p, b, now, cost);
    RejectionsAreInvisible(p, b', between, t);
    FitsFromRetryOn(p, b, now, cost, t);
  }

  lemma FitsFromRetryOn(p: Policy, b: Bucket, now: int, cost: int, t: int)
    requires Valid(p) && InRange(p, b) && 0 <= cost <= p.capacity && !Admits(p, b, now, cost) && now <= t
    ensures var (b', r) := Script(p, b, now, cost);
            r.retryAfterMs >= 1 && (Admits(p, b', t, cost) <==> t >= now + r.retryAfterMs)
  {
    var b' := Script(p, b, now, cost).0;
    var excess := b'.level + cost as real - p.capacity as real;
    CeilBounds(excess / p.leakPerSecond * 1000.0);
    DrainsIff(p, excess, t - now);
    DrainsIff(p, excess, 0);
    LeakIsMonotone(p, 0, 0);
    assert Admits(p, b', t, cost) <==> Leak(p, t - now) >= excess;
  }

  /** Every call of the same cost or more before the retry time is rejected, so
      impatient callers do not postpone their own admission. */
  lemma {:induction false} ImpatientCallsAreRejected(p: Policy, b: Bucket, now: int, cost: int, between: seq<Call>)
    requires Valid(p) && InRange(p, b) && 0 <= cost <= p.capacity && !Admits(p, b, now, cost)
    requires Monotone(Script(p, b, now, cost).0, between)
    requires forall i :: 0 <= i < |between| ==>
               between[i].cost >= cost && between[i].now < now + Script(p, b, now, cost).1.retryAfterMs
    ensures Erase(p, Script(p, b, now, cost).0, between) == []
  {
    if between != [] {
      var n := |between| - 1;
      ImpatientCallsAreRejected(p, b, now, cost, between[..n]);
      RetryTimeIsExact(p, b, now, cost, between[..n], between[n].now);
    }
  }
}
