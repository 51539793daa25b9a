/** Redelivery of like events.

    The consumer group delivers at least once, so an already applied tail of
    the log may be applied again.  The edges always survive that; the counter
    survives it exactly when it is not below the edge count. */
module LikeReplay {
  import opened Common
  import opened LikeRepository

  function LastOp(log: seq<UserOp>, u: UserId): Option<Op> {
    if log == [] then None
    else if log[|log| - 1].user == u then Some(log[|log| - 1].op)
    else LastOp(log[..|log| - 1], u)
  }

  /** The last operation of a user decides that user's edge; without one the
      edge is as before. */
  lemma {:induction false} LastOpDecides(r: Row, log: seq<UserOp>, u: UserId)
    ensures u in RowRun(r, log).users <==>
              (LastOp(log, u) == Some(Like) || (LastOp(log, u) == None && u in r.users))
  {
    if log != [] {
      LastOpDecides(r, log[..|log| - 1], u);
    }
  }

  lemma {:induction false} LastOpConcat(a: seq<UserOp>, b: seq<UserOp>, u: UserId)
    ensures LastOp(a + b, u) == if LastOp(b, u).Some? then LastOp(b, u) else LastOp(a, u)
  {
    if b == [] {
      assert a + b == a;
    } else {
      assert (a + b)[..|a + b| - 1] == a + b[..|b| - 1];
      LastOpConcat(a, b[..|b| - 1], u);
    }
  }

  /** Replaying any applied tail and then continuing ends with the same edges as
      never replaying, whatever the counter was. */
  lemma ReplayKeepsUsers(r: Row, log: seq<UserOp>, k: nat, rest: seq<UserOp>)
    requires k <= |log|
    ensures RowRun(r, log + log[k..] + rest).users == RowRun(r, log + rest).users
  {
    forall u
      ensures u in RowRun(r, log + log[k..] + rest).users <==> u in RowRun(r, log + rest).users
    {
      LastOpDecides(r, log + log[k..] + rest, u);
      LastOpDecides(r, log + rest, u);
      LastOpConcat(log + log[k..], rest, u);
      LastOpConcat(log, log[k..], u);
      LastOpConcat(log, rest, u);
      assert log == log[..k] + log[k..];
      LastOpConcat(log[..k], log[k..], u);
    }
  }

  /** One redelivered entry on its own (a pending entry that another consumer
      reclaims later) is a no-op exactly when no later operation of that user
      undid it. */
  lemma SingleReplayNoopIff(r: Row, log: seq<UserOp>, i: nat)
    requires i < |log|
    ensures RowNext(RowRun(r, log), log[i]) == RowRun(r, log) <==>
            LastOp(log, log[i].user) == Some(log[i].op)
  {
    var u := log[i].user;
    LastOpDecides(r, log, u);
    assert LastOp(log, u).Some? by {
      assert log == log[..i + 1] + log[i + 1..];
      LastOpConcat(log[..i + 1], log[i + 1..], u);
      assert log[..i + 1][i] == log[i];
    }
    assert LastOp(log, u).value.Like? || LastOp(log, u).value.Unlike?;
  }

  ghost predicate ReplaySafe(r: Row) {
    forall log: seq<UserOp>, k: nat :: k <= |log| ==> RowRun(r, log + log[k..]) == RowRun(r, log)
  }

  /** Replays are invisible from a slice exactly when its counter is not below
      its number of edges. */
  lemma ReplaySafeIff(r: Row)
    ensures ReplaySafe(r) <==> Drift(r) >= 0
  {
    if Drift(r) >= 0 {
      forall log: seq<UserOp>, k: nat | k <= |log|
        ensures RowRun(r, log + log[k..]) == RowRun(r, log)
      {
        assert log + log[k..] + [] == log + log[k..] && log + [] == log;
        ReplayKeepsUsers(r, log, k, []);
        DriftOverRun(r, log);
        DriftOverRun(r, log + log[k..]);
      }
    } else {
      var log, k := ReplayWitness(r);
      assert RowRun(r, log + log[k..]) != RowRun(r, log);
    }
  }

  function Ops(us: seq<UserId>, op: Op): (log: seq<UserOp>)
    ensures |log| == |us|
  {
    seq(|us|, i requires 0 <= i < |us| => UserOp(us[i], op))
  }

  ghost predicate Distinct(us: seq<UserId>) {
    forall i, j :: 0 <= i < j < |us| ==> us[i] != us[j]
  }

  function Members(us: seq<UserId>): set<UserId> {
    set u | u in us
  }

  lemma LastMember(us: seq<UserId>, op: Op)
    requires us != [] && Distinct(us)
    ensures var n := |us| - 1;
            && Distinct(us[..n]) && us[n] !in us[..n] && Members(us) == Members(us[..n]) + {us[n]}
            && Ops(us, op)[..n] == Ops(us[..n], op) && Ops(us, op)[n] == UserOp(us[n], op)
  {}

  /** Unliking distinct users who all like drains the counter by their number,
      but not below zero. */
  lemma {:induction false} Drain(r: Row, us: seq<UserId>)
    requires Distinct(us) && Members(us) <= r.users
    ensures RowRun(r, Ops(us, Unlike)) == Row(r.users - Members(us), Max(r.count - |us|, 0))
  {
    if us == [] {
      assert r.users - Members(us) == r.users;
    } else {
      var init, last := us[..|us| - 1], us[|us| - 1];
      LastMember(us, Unlike);
      Drain(r, init);
      assert r.users - Members(init) - {last} == r.users - Members(us);
    }
  }

  lemma {:induction false} Refill(r: Row, us: seq<UserId>)
    requires Distinct(us) && Members(us) !! r.users
    ensures RowRun(r, Ops(us, Like)) == Row(r.users + Members(us), r.count + |us|)
  {
    if us == [] {
      assert r.users + Members(us) == r.users;
    } else {
      var init, last := us[..|us| - 1], us[|us| - 1];
      LastMember(us, Like);
      Refill(r, init);
      assert r.users + Members(init) + {last} == r.users + Members(us);
    }
  }

  lemma {:induction false} Pick(users: set<UserId>, n: nat) returns (us: seq<UserId>)
    requires n <= |users|
    ensures |us| == n && Distinct(us) && Members(us) <= users
  {
    if n == 0 {
      us := [];
    } else {
      var u :| u in users;
      var rest := Pick(users - {u}, n - 1);
      us := rest + [u];
    }
  }

  lemma {:induction false} Fresh(users: set<UserId>) returns (b: UserId)
    ensures forall u :: u in users ==> u < b
  {
    if users == {} {
      b := 0;
    } else {
      var x :| x in users;
      var c := Fresh(users - {x});
      b := Max(c, x + 1);
      forall u | u in users ensures u < b {
        if u != x { assert u in users - {x}; }
      }
    }
  }

  /** Below the edge count, a log whose tail empties the counter and refills it
      shows the replay: the second pass hits the clamp at zero. */
  lemma ReplayWitness(r: Row) returns (log: seq<UserOp>, k: nat)
    requires Drift(r) < 0
    ensures k <= |log| && RowRun(r, log + log[k..]) != RowRun(r, log)
  {
    var us := Pick(r.users, r.count + 1);
    var b := Fresh(r.users);
    var head, tail := [UserOp(b, Like)], Ops(us, Unlike) + Ops(us, Like) + [UserOp(b, Unlike)];
    log, k := head + tail, 1;
    assert log[k..] == tail;

    // first pass
    var r1 := Row(r.users + {b}, r.count + 1);
    assert head[..0] == [];
    assert RowRun(r, head) == r1;
    TailRun(r1, us, b);
    RowRunConcat(r, head, tail);
    assert b !in us;
    assert r1.users - Members(us) + Members(us) == r1.users;
    assert RowRun(r, log).count == r.count;

    // second pass
    var r2 := RowRun(r, log);
    assert r2.users == r.users by { assert r1.users - {b} == r.users; }
    TailRun(r2, us, b);
    RowRunConcat(r, log, tail);
    assert RowRun(r, log + tail).count == r.count + 1;
  }

  lemma TailRun(r: Row, us: seq<UserId>, b: UserId)
    requires Distinct(us) && Members(us) <= r.users && b !in us
    ensures RowRun(r, Ops(us, Unlike) + Ops(us, Like) + [UserOp(b, Unlike)]) ==
            RowNext(Row(r.users, Max(r.count - |us|, 0) + |us|), UserOp(b, Unlike))
  {
    var down, up, last := Ops(us, Unlike), Ops(us, Like), UserOp(b, Unlike);
    Drain(r, us);
    var mid := RowRun(r, down);
    Refill(mid, us);
    RowRunConcat(r, down, up);
    assert mid.users + Members(us) == r.users;
    assert (down + up + [last])[..|down + up|] == down + up;
  }

  /** Both tables, all videos: replaying any applied tail of the stream and then
      continuing gives the edges of applying the stream once; and the same
      counters too wherever the counter was not below the edge count. */
  lemma ReplayThenContinue(s: Pg, log: seq<Event>, k: nat, rest: seq<Event>, v: VideoId)
    requires WellFormed(s) && v in s.counts && k <= |log|
    ensures var once, again := Run(s, log + rest), Run(s, log + log[k..] + rest);
            && v in once.counts && v in again.counts
            && Users(again.edges, v) == Users(once.edges, v)
            && (s.counts[v] >= |Users(s.edges, v)| ==> again.counts[v] == once.counts[v])
  {
    var r, mine, more := RowOf(s, v), Project(log, v), Project(rest, v);
    var j := |Project(log[..k], v)|;
    RunOfRow(s, log + rest, v);
    RunOfRow(s, log + log[k..] + rest, v);
    ProjectConcat(log, rest, v);
    ProjectConcat(log + log[k..], rest, v);
    ProjectConcat(log, log[k..], v);
    ProjectConcat(log[..k], log[k..], v);
    assert log == log[..k] + log[k..];
    assert Project(log[k..], v) == mine[j..];
    ReplayKeepsUsers(r, mine, j, more);
    DriftOverRun(r, mine + more);
    DriftOverRun(r, mine + mine[j..] + more);
  }
}
