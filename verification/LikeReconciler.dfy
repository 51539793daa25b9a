/** The counter reconciler: read the counter, read the edge count, write the
    edge count back.  The three steps are separate statements, so applies of the
    like worker land between them; `Window` says which. */
module LikeReconciler {
  import opened Common
  import opened LikeRepository
  import opened LikeReplay

  /** What happens around one id of a pass: events the worker applies before the
      counter is read, after that, and after the edges were counted; and which of
      the reconciler's own statements fail. */
  datatype Window = Window(before: seq<Event>, afterCount: seq<Event>, afterEdges: seq<Event>,
                           countFails: bool, edgesFail: bool, writeFails: bool)

  datatype Verdict = Unread | Clean | Unwritten | Rewritten(rows: nat)

  function Overwrite(s: Pg, v: VideoId, exact: nat): Pg {
    if v in s.counts then s.(counts := s.counts[v := exact]) else s
  }

  /** The tables the three statements find. */
  function AtCount(s: Pg, w: Window): Pg { Run(s, w.before) }
  function AtEdges(s: Pg, w: Window): Pg { Run(AtCount(s, w), w.afterCount) }
  function AtWrite(s: Pg, w: Window): Pg { Run(AtEdges(s, w), w.afterEdges) }

  /** One id of a pass. */
  function Visit(s: Pg, v: VideoId, w: Window): (Pg, Verdict) {
    var (s0, s1, s2) := (AtCount(s, w), AtEdges(s, w), AtWrite(s, w));
    if w.countFails || v !in s0.counts then (s0, Unread)
    else if w.edgesFail then (s1, Unread)
    else
      var exact := |Users(s1.edges, v)|;
      if s0.counts[v] == exact then (s1, Clean)
      else if w.writeFails then (s2, Unwritten)
      else (Overwrite(s2, v, exact), Rewritten(if v in s2.counts && s2.counts[v] != exact then 1 else 0))
  }

  datatype Tally = Tally(checked: nat, drifted: nat, corrected: nat)

  function Counted(n: Tally, verdict: Verdict): Tally {
    match verdict
    case Unread => n
    case Clean => n.(checked := n.checked + 1)
    case Unwritten => n.(checked := n.checked + 1, drifted := n.drifted + 1)
    case Rewritten(rows) => Tally(n.checked + 1, n.drifted + 1, n.corrected + rows)
  }

  /** The first i ids of a pass. */
  function Pass(s: Pg, ids: seq<VideoId>, ws: seq<Window>, i: nat): (Pg, Tally)
    requires i <= |ids| == |ws|
  {
    if i == 0 then (s, Tally(0, 0, 0))
    else
      var (t, n) := Pass(s, ids, ws, i - 1);
      var (t', verdict) := Visit(t, ids[i - 1], ws[i - 1]);
      (t', Counted(n, verdict))
  }

  lemma {:induction false} TallyInOrder(s: Pg, ids: seq<VideoId>, ws: seq<Window>, i: nat)
    requires i <= |ids| == |ws|
    ensures var n := Pass(s, ids, ws, i).1; n.corrected <= n.drifted <= n.checked <= i
  {
    if i > 0 {
      TallyInOrder(s, ids, ws, i - 1);
    }
  }

  /** What the first n visits find. */
  function Verdicts(s: Pg, ids: seq<VideoId>, ws: seq<Window>, n: nat): (vs: seq<Verdict>)
    requires n <= |ids| == |ws|
    ensures |vs| == n
  {
    if n == 0 then []
    else Verdicts(s, ids, ws, n - 1) + [Visit(Pass(s, ids, ws, n - 1).0, ids[n - 1], ws[n - 1]).1]
  }

  /** The visits whose reads were both done, that found a difference, and whose
      write modified a row. */
  function BothRead(vs: seq<Verdict>): set<nat> {
    set i: nat | i < |vs| && !vs[i].Unread?
  }

  function FoundDrift(vs: seq<Verdict>): set<nat> {
    set i: nat | i < |vs| && (vs[i].Unwritten? || vs[i].Rewritten?)
  }

  function Modified(vs: seq<Verdict>): set<nat> {
    set i: nat | i < |vs| && vs[i] == Rewritten(1)
  }

  function Tallied(vs: seq<Verdict>): Tally {
    if vs == [] then Tally(0, 0, 0) else Counted(Tallied(vs[..|vs| - 1]), vs[|vs| - 1])
  }

  lemma OneMoreVisit(vs: seq<Verdict>, v: Verdict)
    ensures BothRead(vs + [v]) == BothRead(vs) + if v.Unread? then {} else {|vs|}
    ensures FoundDrift(vs + [v]) == FoundDrift(vs) + if v.Unwritten? || v.Rewritten? then {|vs|} else {}
    ensures Modified(vs + [v]) == Modified(vs) + if v == Rewritten(1) then {|vs|} else {}
  {}

  lemma {:induction false} TalliedCounts(vs: seq<Verdict>)
    requires forall v :: v in vs && v.Rewritten? ==> v.rows <= 1
    ensures Tallied(vs) == Tally(|BothRead(vs)|, |FoundDrift(vs)|, |Modified(vs)|)
  {
    if vs != [] {
      var init, v := vs[..|vs| - 1], vs[|vs| - 1];
      assert vs == init + [v];
      TalliedCounts(init);
      OneMoreVisit(init, v);
    }
  }

  lemma {:induction false} PassTallies(s: Pg, ids: seq<VideoId>, ws: seq<Window>, n: nat)
    requires n <= |ids| == |ws|
    ensures Pass(s, ids, ws, n).1 == Tallied(Verdicts(s, ids, ws, n))
    ensures forall v :: v in Verdicts(s, ids, ws, n) && v.Rewritten? ==> v.rows <= 1
  {
    if n > 0 {
      PassTallies(s, ids, ws, n - 1);
      var vs := Verdicts(s, ids, ws, n - 1);
      assert Verdicts(s, ids, ws, n)[..n - 1] == vs;
    }
  }

  /** The tallies are the numbers of these visits. */
  lemma TalliesCount(s: Pg, ids: seq<VideoId>, ws: seq<Window>, n: nat)
    requires n <= |ids| == |ws|
    ensures var vs := Verdicts(s, ids, ws, n);
            Pass(s, ids, ws, n).1 == Tally(|BothRead(vs)|, |FoundDrift(vs)|, |Modified(vs)|)
  {
    PassTallies(s, ids, ws, n);
    TalliedCounts(Verdicts(s, ids, ws, n));
  }

  /** What a verdict means for the tables: the reads went through, they differed,
      the write went through, and it found the row different from what it writes. */
  lemma VerdictMeans(s: Pg, v: VideoId, w: Window)
    ensures var (s0, s1, s2) := (AtCount(s, w), AtEdges(s, w), AtWrite(s, w));
            var verdict := Visit(s, v, w).1;
            && (verdict.Unread? <==> w.countFails || w.edgesFail || v !in s0.counts)
            && (verdict.Clean? <==> !verdict.Unread? && s0.counts[v] == |Users(s1.edges, v)|)
            && (verdict.Unwritten? <==> !verdict.Unread? && !verdict.Clean? && w.writeFails)
            && (verdict.Rewritten? ==> verdict.rows <= 1)
            && (verdict == Rewritten(1) <==>
                  !verdict.Unread? && !verdict.Clean? && !verdict.Unwritten? && v in s2.counts
                  && s2.counts[v] != |Users(s1.edges, v)|)
  {}

  /** A visit with a failing statement writes nothing: both tables are what the
      worker alone leaves. */
  lemma FailingVisitWritesNothing(s: Pg, v: VideoId, w: Window)
    requires w.countFails || w.edgesFail || w.writeFails
    ensures var t := Visit(s, v, w).0;
            && (w.countFails ==> t == Run(s, w.before))
            && (!w.countFails && w.edgesFail && v in AtCount(s, w).counts ==> t == Run(s, w.before + w.afterCount))
            && t in {Run(s, w.before), Run(s, w.before + w.afterCount), Run(s, w.before + w.afterCount + w.afterEdges)}
  {
    RunConcat(s, w.before, w.afterCount);
    RunConcat(s, w.before + w.afterCount, w.afterEdges);
  }

  /** The worker's statements that land in a gap of the pass. */
  method WorkerApplies(pg: Postgres, log: seq<Event>)
    modifies pg
    ensures pg.State() == Run(old(pg.State()), log)
  {
    for i := 0 to |log|
      invariant pg.State() == Run(old(pg.State()), log[..i])
    {
      assert log[..i + 1][..i] == log[..i];
      var _ := pg.Apply(log[i], true);
    }
    assert log[..|log|] == log;
  }

  /** One reconciliation pass over the sampled ids, with the worker running. */
  method Once(pg: Postgres, ids: seq<VideoId>, ws: seq<Window>)
    returns (checked: nat, drifted: nat, corrected: nat)
    requires |ids| == |ws|
    modifies pg
    ensures (pg.State(), Tally(checked, drifted, corrected)) == Pass(old(pg.State()), ids, ws, |ids|)
    ensures corrected <= drifted <= checked <= |ids|
  {
    checked, drifted, corrected := 0, 0, 0;
    ghost var s := pg.State();
    for i := 0 to |ids|
      invariant (pg.State(), Tally(checked, drifted, corrected)) == Pass(s, ids, ws, i)
    {
      var id, w := ids[i], ws[i];
      WorkerApplies(pg, w.before);
      if w.countFails {
        continue;
      }
      var stored := pg.Count(id);
      if stored.Err? {
        continue;
      }
      WorkerApplies(pg, w.afterCount);
      if w.edgesFail {
        continue;
      }
      var exact := pg.CountFromEdges(id);
      checked := checked + 1;
      if stored.value == exact {
        continue;
      }
      WorkerApplies(pg, w.afterEdges);
      drifted := drifted + 1;
      if w.writeFails {
        continue;
      }
      ghost var found := pg.State();
      var n := pg.ReconcileCounter(id, exact);
      assert pg.counts == Overwrite(found, id, exact).counts;
      corrected := corrected + n;
    }
    TallyInOrder(s, ids, ws, |ids|);
  }

  // ----- what a pass achieves -----

  /** None of the reconciler's statements on this id fails. */
  predicate ErrorFree(w: Window) {
    !w.countFails && !w.edgesFail && !w.writeFails
  }

  /** The worker events of `w` on v that fall between the counter read and the
      reconciler's last step on v. */
  function Interference(s: Pg, v: VideoId, w: Window): nat {
    if Visit(s, v, w).1.Clean? then |Project(w.afterCount, v)| else |Project(w.afterEdges, v)|
  }

  /** All worker events that land before the reconciler is done with v. */
  function Landed(s: Pg, v: VideoId, w: Window): seq<Event> {
    match Visit(s, v, w).1
    case Unread => w.before + if w.countFails || v !in AtCount(s, w).counts then [] else w.afterCount
    case Clean => w.before + w.afterCount
    case _ => w.before + w.afterCount + w.afterEdges
  }

  lemma OverwriteRow(s: Pg, v: VideoId, exact: nat)
    requires WellFormed(s) && v in s.counts
    ensures WellFormed(Overwrite(s, v, exact))
    ensures Overwrite(s, v, exact).counts.Keys == s.counts.Keys
    ensures RowOf(Overwrite(s, v, exact), v) == Row(Users(s.edges, v), exact)
    ensures forall u :: u in s.counts && u != v ==> RowOf(Overwrite(s, v, exact), u) == RowOf(s, u)
  {}

  /** v's rows at the three statements. */
  lemma RowsSeen(s: Pg, v: VideoId, w: Window)
    requires WellFormed(s) && v in s.counts
    ensures var (s0, s1, s2) := (AtCount(s, w), AtEdges(s, w), AtWrite(s, w));
            && WellFormed(s0) && WellFormed(s1) && WellFormed(s2)
            && v in s0.counts && v in s1.counts && v in s2.counts
            && RowOf(s1, v) == RowRun(RowOf(s0, v), Project(w.afterCount, v))
            && RowOf(s2, v) == RowRun(RowOf(s1, v), Project(w.afterEdges, v))
  {
    RunOfRow(s, w.before, v);
    RunOfRow(AtCount(s, w), w.afterCount, v);
    RunOfRow(AtEdges(s, w), w.afterEdges, v);
  }

  /** Whatever the counter was, after an error-free visit it is off by no more
      than the events that landed on v during the visit. */
  lemma VisitBoundsDrift(s: Pg, v: VideoId, w: Window)
    requires WellFormed(s) && v in s.counts && ErrorFree(w)
    ensures var t := Visit(s, v, w).0;
            WellFormed(t) && v in t.counts && Abs(Drift(RowOf(t, v))) <= Interference(s, v, w)
  {
    RowsSeen(s, v, w);
    if Visit(s, v, w).1.Clean? {
      CleanVisitBound(RowOf(AtCount(s, w), v), Project(w.afterCount, v));
    } else {
      OverwriteRow(AtWrite(s, w), v, |Users(AtEdges(s, w).edges, v)|);
      RewriteBound(RowOf(AtEdges(s, w), v), Project(w.afterEdges, v));
    }
  }

  lemma CleanVisitBound(r: Row, log: seq<UserOp>)
    requires r.count == |RowRun(r, log).users|
    ensures Abs(Drift(RowRun(r, log))) <= |log|
  {
    MovesOverRun(r, log);
  }

  lemma RewriteBound(r: Row, log: seq<UserOp>)
    ensures Abs(Drift(Row(RowRun(r, log).users, |r.users|))) <= |log|
  {
    MovesOverRun(r, log);
  }

  /** When an error-free visit leaves an exact counter: a row read as clean is
      exact if and only if the counter had not moved when the edges were counted,
      a rewritten one if and only if the number of edges had not moved since. */
  lemma VisitIsExactIff(s: Pg, v: VideoId, w: Window)
    requires WellFormed(s) && v in s.counts && ErrorFree(w)
    ensures var (s0, s1, s2) := (AtCount(s, w), AtEdges(s, w), AtWrite(s, w));
            var (t, verdict) := Visit(s, v, w);
            && (verdict.Clean? || verdict.Rewritten?)
            && v in s0.counts && v in s1.counts && v in t.counts
            && (Drift(RowOf(t, v)) == 0 <==>
                  if verdict.Clean? then s1.counts[v] == s0.counts[v]
                  else |Users(s1.edges, v)| == |Users(s2.edges, v)|)
  {
    RowsSeen(s, v, w);
    OverwriteRow(AtWrite(s, w), v, |Users(AtEdges(s, w).edges, v)|);
  }

  /** Whatever the verdict, a visit never touches the edges and never touches
      another video's row, beyond what the worker itself does; and it changes
      nothing at all unless it writes. */
  lemma VisitLeavesTheRest(s: Pg, v: VideoId, w: Window)
    requires WellFormed(s)
    ensures var (t, worker) := (Visit(s, v, w).0, Run(s, Landed(s, v, w)));
            && WellFormed(t) && t.edges == worker.edges && t.counts.Keys == worker.counts.Keys == s.counts.Keys
            && (forall u :: u in s.counts && u != v ==> RowOf(t, u) == RowOf(worker, u))
            && (!Visit(s, v, w).1.Rewritten? ==> t == worker)
  {
    RunConcat(s, w.before, w.afterCount);
    RunConcat(s, w.before + w.afterCount, w.afterEdges);
    assert w.before + [] == w.before;
    RunKeepsVideos(s, Landed(s, v, w));
    RunKeepsVideos(s, w.before);
    if Visit(s, v, w).1.Rewritten? {
      OverwriteRow(AtWrite(s, w), v, |Users(AtEdges(s, w).edges, v)|);
    }
  }

  lemma VisitSparesOthers(s: Pg, v: VideoId, w: Window, u: VideoId)
    requires WellFormed(s) && u in s.counts && u != v
    ensures var t := Visit(s, v, w).0; u in t.counts && Abs(Drift(RowOf(t, u))) <= Abs(Drift(RowOf(s, u)))
  {
    VisitLeavesTheRest(s, v, w);
    RunOfRow(s, Landed(s, v, w), u);
    DriftOverRun(RowOf(s, u), Project(Landed(s, v, w), u));
  }

  lemma {:induction false} PassKeepsVideos(s: Pg, ids: seq<VideoId>, ws: seq<Window>, i: nat)
    requires WellFormed(s) && i <= |ids| == |ws|
    ensures WellFormed(Pass(s, ids, ws, i).0) && Pass(s, ids, ws, i).0.counts.Keys == s.counts.Keys
  {
    if i > 0 {
      PassKeepsVideos(s, ids, ws, i - 1);
      VisitLeavesTheRest(Pass(s, ids, ws, i - 1).0, ids[i - 1], ws[i - 1]);
    }
  }

  /** From its visit to the end of the pass, with the worker running all along,
      the drift of a sampled video is at most the interference of that visit. */
  lemma {:induction false} PassBoundsDrift(s: Pg, ids: seq<VideoId>, ws: seq<Window>, k: nat, i: nat)
    requires WellFormed(s) && |ids| == |ws| && forall i, j :: 0 <= i < j < |ids| ==> ids[i] != ids[j]
    requires k < i <= |ids| && ids[k] in s.counts && ErrorFree(ws[k])
    ensures var t := Pass(s, ids, ws, i).0;
            ids[k] in t.counts &&
            Abs(Drift(RowOf(t, ids[k]))) <= Interference(Pass(s, ids, ws, k).0, ids[k], ws[k])
  {
    var t := Pass(s, ids, ws, i - 1).0;
    PassKeepsVideos(s, ids, ws, i - 1);
    if k == i - 1 {
      VisitBoundsDrift(t, ids[k], ws[k]);
    } else {
      PassBoundsDrift(s, ids, ws, k, i - 1);
      VisitSparesOthers(t, ids[i - 1], ws[i - 1], ids[k]);
    }
  }

  predicate Quiet(w: Window) {
    w == Window([], [], [], false, false, false)
  }

  /** With no interference a pass makes every sampled counter exact, changes no
      edge, and leaves unsampled counters alone; a second pass then finds
      nothing. */
  lemma {:induction false} QuietPassHeals(s: Pg, ids: seq<VideoId>, ws: seq<Window>, i: nat)
    requires WellFormed(s) && i <= |ids| == |ws|
    requires forall j :: 0 <= j < |ws| ==> Quiet(ws[j])
    ensures var t := Pass(s, ids, ws, i).0;
            && WellFormed(t) && t.edges == s.edges && t.counts.Keys == s.counts.Keys
            && forall v :: v in s.counts ==> t.counts[v] == if v in ids[..i] then |Users(s.edges, v)| else s.counts[v]
  {
    if i > 0 {
      QuietPassHeals(s, ids, ws, i - 1);
      assert Quiet(ws[i - 1]);
      assert forall v :: v in ids[..i] <==> v in ids[..i - 1] || v == ids[i - 1];
    }
  }

  /** Clean rows are untouched: without interference a visit to an exact counter
      is the identity, and only an exact counter is found clean. */
  lemma CleanIffExact(s: Pg, v: VideoId, w: Window)
    requires WellFormed(s) && v in s.counts && Quiet(w)
    ensures Visit(s, v, w).1 == Clean <==> Drift(RowOf(s, v)) == 0
    ensures Visit(s, v, w).0 == s <==> Drift(RowOf(s, v)) == 0
  {
    if s.counts[v] != |Users(s.edges, v)| {
      assert Visit(s, v, w).0.counts[v] != s.counts[v];
    }
  }

  // ----- two visits that leave drift -----

  /** One like of video 7 that lands. */
  lemma OneLike(s: Pg, u: UserId)
    requires 7 in s.counts && Pair(u, 7) !in s.edges
    ensures var t := Run(s, [Event(Pair(u, 7), Like)]);
            t.edges == s.edges + {Pair(u, 7)} && t.counts == s.counts[7 := s.counts[7] + 1]
            && Users(t.edges, 7) == Users(s.edges, 7) + {u}
  {
    var a := Event(Pair(u, 7), Like);
    assert Run(s, [a]) == Next(s, a) by { assert [a][..0] == []; }
    UsersUpdate(s.edges, Pair(u, 7), 7);
  }

  /** The reconciler can create the drift it looks for: two likes that land
      around its edge count leave an exact counter one too low, and from there
      redelivered events change counters. */
  lemma PassCanBreakAnExactCounter()
    ensures var s := Pg({}, map[7 := 0]);
            var a, b := Event(Pair(0, 7), Like), Event(Pair(1, 7), Like);
            var t := Visit(s, 7, Window([], [a], [b], false, false, false)).0;
            && Drift(RowOf(s, 7)) == 0
            && 7 in t.counts && Drift(RowOf(t, 7)) == -1 && !ReplaySafe(RowOf(t, 7))
  {
    var s := Pg({}, map[7 := 0]);
    var a, b := Event(Pair(0, 7), Like), Event(Pair(1, 7), Like);
    assert Users({}, 7) == {};
    OneLike(s, 0);
    OneLike(Run(s, [a]), 1);
    assert {0} + {1} == {0, 1};
    ReplaySafeIff(RowOf(Overwrite(Run(Run(s, [a]), [b]), 7, 1), 7));
  }

  /** And it can take a drifted counter for clean: a like between its two reads
      hides that the counter was one too high, and stays so. */
  lemma CleanCanBeDrifted()
    ensures var s := Pg({}, map[7 := 1]);
            var (t, verdict) := Visit(s, 7, Window([], [Event(Pair(0, 7), Like)], [], false, false, false));
            && Drift(RowOf(s, 7)) == 1
            && verdict == Clean && 7 in t.counts && Drift(RowOf(t, 7)) == 1
  {
    var s := Pg({}, map[7 := 1]);
    assert Users({}, 7) == {};
    OneLike(s, 0);
  }
}
