/** The two Postgres tables behind likes, and the statements that write them.

    `Pg` holds the rows of `likes` (a primary key (user, video), so a set of
    pairs) and of `video_stats.likes_count`.  `Row` is the slice of both tables
    that belongs to one video; every statement touches one slice only
    (`ApplyTouchesOneRow`), so facts about logs are proved on slices and lifted
    with `RunOfRow`. */
module LikeRepository {
  import opened Common

  type UserId = nat
  type VideoId = nat

  datatype Pair = Pair(user: UserId, video: VideoId)
  datatype Op = Like | Unlike
  datatype Event = Event(pair: Pair, op: Op)

  datatype Pg = Pg(edges: set<Pair>, counts: map<VideoId, nat>)

  /** What the worker learns from one Apply. */
  datatype Applied = Applied(changed: bool, newCount: nat)

  /** Every edge belongs to a video that has a stats row: the foreign key of
      `likes` plus the trigger that creates the stats row. */
  predicate WellFormed(s: Pg) {
    forall p :: p in s.edges ==> p.video in s.counts
  }

  function Users(edges: set<Pair>, v: VideoId): set<UserId> {
    set p | p in edges && p.video == v :: p.user
  }

  lemma UsersUpdate(edges: set<Pair>, p: Pair, v: VideoId)
    ensures p.video == v ==> (p in edges <==> p.user in Users(edges, v))
    ensures Users(edges + {p}, v) == Users(edges, v) + if p.video == v then {p.user} else {}
    ensures Users(edges - {p}, v) == Users(edges, v) - if p.video == v then {p.user} else {}
  {
    if p.video == v && p.user in Users(edges, v) {
      var q :| q in edges && q.video == v && q.user == p.user;
      assert q == p;
    }
    forall u | u in Users(edges, v) && !(p.video == v && u == p.user)
      ensures u in Users(edges - {p}, v)
    {
      assert Pair(u, v) in edges - {p};
    }
  }

  /** GREATEST(c - 1, 0). */
  function Decremented(c: nat): nat {
    if c > 0 then c - 1 else 0
  }

  /** One CTE round trip.  A like of a video without a row violates the foreign
      key and the whole statement fails. */
  function Statement(s: Pg, ev: Event): Result<(Pg, Applied)> {
    var v := ev.pair.video;
    match ev.op
    case Like =>
      if ev.pair in s.edges then Ok((s, Applied(false, if v in s.counts then s.counts[v] else 0)))
      else if v !in s.counts then Err("foreign key")
      else Ok((Pg(s.edges + {ev.pair}, s.counts[v := s.counts[v] + 1]), Applied(true, s.counts[v] + 1)))
    case Unlike =>
      if ev.pair !in s.edges then Ok((s, Applied(false, if v in s.counts then s.counts[v] else 0)))
      else if v !in s.counts then Ok((s.(edges := s.edges - {ev.pair}), Applied(true, 0)))
      else
        var c := Decremented(s.counts[v]);
        Ok((Pg(s.edges - {ev.pair}, s.counts[v := c]), Applied(true, c)))
  }

  /** The report, read off the tables before and after: changed if and only if the
      edges differ, and the counter that is stored now.  Only a new like of a video
      without a stats row fails. */
  lemma StatementReports(s: Pg, ev: Event)
    ensures var r := Statement(s, ev);
            && (r.Err? <==> ev.op == Like && ev.pair !in s.edges && ev.pair.video !in s.counts)
            && (r.Ok? ==>
                  var (t, report) := r.value;
                  && (report.changed <==> t.edges != s.edges)
                  && report.newCount == (if ev.pair.video in t.counts then t.counts[ev.pair.video] else 0)
                  && t.edges == (if ev.op == Like then s.edges + {ev.pair} else s.edges - {ev.pair})
                  && (!report.changed ==> t == s))
  {
    if ev.op == Like && ev.pair !in s.edges {
      assert ev.pair in s.edges + {ev.pair};
    } else if ev.op == Unlike && ev.pair in s.edges {
      assert ev.pair !in s.edges - {ev.pair};
    } else {
      assert s.edges == if ev.op == Like then s.edges + {ev.pair} else s.edges - {ev.pair};
    }
  }

  /** The tables after one Apply; a failed statement changes nothing. */
  function Next(s: Pg, ev: Event): Pg {
    var r := Statement(s, ev);
    if r.Ok? then r.value.0 else s
  }

  function Run(s: Pg, log: seq<Event>): Pg {
    if log == [] then s else Next(Run(s, log[..|log| - 1]), log[|log| - 1])
  }

  // ----- one video's slice -----

  datatype Row = Row(users: set<UserId>, count: nat)
  datatype UserOp = UserOp(user: UserId, op: Op)

  function RowNext(r: Row, e: UserOp): Row {
    match e.op
    case Like => if e.user in r.users then r else Row(r.users + {e.user}, r.count + 1)
    case Unlike => if e.user !in r.users then r else Row(r.users - {e.user}, Decremented(r.count))
  }

  function RowRun(r: Row, log: seq<UserOp>): Row {
    if log == [] then r else RowNext(RowRun(r, log[..|log| - 1]), log[|log| - 1])
  }

  function RowOf(s: Pg, v: VideoId): Row
    requires v in s.counts
  {
    Row(Users(s.edges, v), s.counts[v])
  }

  /** How far the stored counter is from the number of edges. */
  function Drift(r: Row): int {
    r.count - |r.users|
  }

  function Project(log: seq<Event>, v: VideoId): seq<UserOp> {
    if log == [] then []
    else
      var last := log[|log| - 1];
      var rest := Project(log[..|log| - 1], v);
      if last.pair.video == v then rest + [UserOp(last.pair.user, last.op)] else rest
  }

  lemma ApplyTouchesOneRow(s: Pg, ev: Event, v: VideoId)
    requires WellFormed(s) && v in s.counts
    ensures WellFormed(Next(s, ev)) && Next(s, ev).counts.Keys == s.counts.Keys
    ensures RowOf(Next(s, ev), v) ==
            if v == ev.pair.video then RowNext(RowOf(s, v), UserOp(ev.pair.user, ev.op)) else RowOf(s, v)
    ensures forall p :: p != ev.pair ==> (p in Next(s, ev).edges <==> p in s.edges)
  {
    UsersUpdate(s.edges, ev.pair, v);
  }

  lemma {:induction false} RunKeepsVideos(s: Pg, log: seq<Event>)
    requires WellFormed(s)
    ensures WellFormed(Run(s, log)) && Run(s, log).counts.Keys == s.counts.Keys
  {
    if log != [] {
      RunKeepsVideos(s, log[..|log| - 1]);
    }
  }

  /** A log acts on each video exactly as that video's share of the log acts on
      its slice, whatever the other videos do. */
  lemma {:induction false} RunOfRow(s: Pg, log: seq<Event>, v: VideoId)
    requires WellFormed(s) && v in s.counts
    ensures WellFormed(Run(s, log)) && v in Run(s, log).counts
    ensures RowOf(Run(s, log), v) == RowRun(RowOf(s, v), Project(log, v))
  {
    RunKeepsVideos(s, log);
    if log != [] {
      var init, last := log[..|log| - 1], log[|log| - 1];
      RunOfRow(s, init, v);
      ApplyTouchesOneRow(Run(s, init), last, v);
      if last.pair.video == v {
        var share := Project(init, v);
        var e := UserOp(last.pair.user, last.op);
        assert (share + [e])[..|share|] == share;
      }
    }
  }

  lemma {:induction false} RunConcat(s: Pg, a: seq<Event>, b: seq<Event>)
    ensures Run(s, a + b) == Run(Run(s, a), b)
  {
    if b == [] {
      assert a + b == a;
    } else {
      assert (a + b)[..|a + b| - 1] == a + b[..|b| - 1];
      RunConcat(s, a, b[..|b| - 1]);
    }
  }

  lemma {:induction false} RowRunConcat(r: Row, a: seq<UserOp>, b: seq<UserOp>)
    ensures RowRun(r, a + b) == RowRun(RowRun(r, a), b)
  {
    if b == [] {
      assert a + b == a;
    } else {
      assert (a + b)[..|a + b| - 1] == a + b[..|b| - 1];
      RowRunConcat(r, a, b[..|b| - 1]);
    }
  }

  lemma {:induction false} ProjectConcat(a: seq<Event>, b: seq<Event>, v: VideoId)
    ensures Project(a + b, v) == Project(a, v) + Project(b, v)
  {
    if b == [] {
      assert a + b == a;
    } else {
      assert (a + b)[..|a + b| - 1] == a + b[..|b| - 1];
      ProjectConcat(a, b[..|b| - 1], v);
    }
  }

  // ----- the counter against the edges -----

  /** An Apply never moves the counter away from the edge count, keeps the drift
      exactly unless the clamp at zero fires, and the clamp needs a counter that
      is already below the edge count. */
  lemma DriftStep(r: Row, e: UserOp)
    ensures Abs(Drift(RowNext(r, e))) <= Abs(Drift(r))
    ensures Drift(r) <= 0 ==> Drift(r) <= Drift(RowNext(r, e)) <= 0
    ensures Drift(RowNext(r, e)) != Drift(r) ==>
              e.op == Unlike && e.user in r.users && r.count == 0 && Drift(r) < 0
    ensures Abs(RowNext(r, e).count - r.count) <= 1
    ensures Abs(|RowNext(r, e).users| - |r.users|) <= 1
  {
    if e.op == Unlike && e.user in r.users {
      assert |r.users - {e.user}| == |r.users| - 1;
    }
  }

  /** Over any log: drift never grows, never changes sign, and a counter that is
      not below the edge count keeps its drift exactly; zero stays zero. */
  lemma {:induction false} DriftOverRun(r: Row, log: seq<UserOp>)
    ensures Abs(Drift(RowRun(r, log))) <= Abs(Drift(r))
    ensures Drift(r) <= 0 ==> Drift(r) <= Drift(RowRun(r, log)) <= 0
    ensures Drift(r) >= 0 ==> Drift(RowRun(r, log)) == Drift(r)
  {
    if log != [] {
      var init := log[..|log| - 1];
      DriftOverRun(r, init);
      DriftStep(RowRun(r, init), log[|log| - 1]);
    }
  }

  /** Neither number moves by more than the events. */
  lemma {:induction false} MovesOverRun(r: Row, log: seq<UserOp>)
    ensures -|log| <= RowRun(r, log).count - r.count <= |log|
    ensures -|log| <= |RowRun(r, log).users| - |r.users| <= |log|
  {
    if log != [] {
      var init := log[..|log| - 1];
      MovesOverRun(r, init);
      DriftStep(RowRun(r, init), log[|log| - 1]);
    }
  }

  /** The tables as the repository object updates them, one statement per
      method. */
  class Postgres {
    var edges: set<Pair>
    var counts: map<VideoId, nat>

    function State(): Pg
      reads this
    {
      Pg(edges, counts)
    }

    constructor (edges: set<Pair>, counts: map<VideoId, nat>)
      ensures State() == Pg(edges, counts)
    {
      this.edges, this.counts := edges, counts;
    }

    /** `ok` is false when the statement itself fails (lost connection,
        timeout); Postgres then rolls it back. */
    method Apply(ev: Event, ok: bool) returns (r: Result<Applied>)
      modifies this
      ensures r.Ok? <==> ok && Statement(old(State()), ev).Ok?
      ensures r.Err? ==> State() == old(State())
      ensures r.Ok? ==> Statement(old(State()), ev).value == (State(), r.value)
      ensures r.Ok? ==> (r.value.changed <==> edges != old(edges))
      ensures r.Ok? ==> r.value.newCount == if ev.pair.video in counts then counts[ev.pair.video] else 0
    {
      StatementReports(State(), ev);
      var v := ev.pair.video;
      if !ok {
        return Err("connection");
      }
      var changed: bool;
      if ev.op == Like {
        changed := ev.pair !in edges;
        if changed {
          if v !in counts {
            return Err("foreign key");
          }
          edges := edges + {ev.pair};
          counts := counts[v := counts[v] + 1];
        }
      } else {
        changed := ev.pair in edges;
        if changed {
          edges := edges - {ev.pair};
          if v in counts {
            counts := counts[v := Decremented(counts[v])];
          }
        }
      }
      r := Ok(Applied(changed, if v in counts then counts[v] else 0));
    }

    /** The stored counter; a video without a row is an error. */
    method Count(v: VideoId) returns (r: Result<nat>)
      ensures r.Ok? <==> v in counts
      ensures r.Ok? ==> r.value == counts[v]
    {
      r := if v in counts then Ok(counts[v]) else Err("no rows");
    }

    method CountFromEdges(v: VideoId) returns (n: nat)
      ensures n == |Users(edges, v)|
    {
      n := |Users(edges, v)|;
    }

    /** Overwrites the counter where it differs; returns the rows modified. */
    method ReconcileCounter(v: VideoId, exact: nat) returns (rows: nat)
      modifies this
      ensures edges == old(edges) && counts.Keys == old(counts).Keys
      ensures forall w :: w in counts ==> counts[w] == if w == v then exact else old(counts)[w]
      ensures rows == if v in old(counts) && old(counts)[v] != exact then 1 else 0
    {
      rows := 0;
      if v in counts && counts[v] != exact {
        counts := counts[v := exact];
        rows := 1;
      }
    }
  }
}
