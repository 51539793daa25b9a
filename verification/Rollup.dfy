/** The daily roll-up in ClickHouse: a materialized view groups every inserted
    block by (day, video), a SummingMergeTree may at any time merge rows of the
    same key, and the stats query sums what is left. */
module Rollup {
  import opened Common
  import opened Text
  import T = ViewTrack
  import opened ViewWorker

  datatype Daily = Daily(day: int, videoId: Uuid, views: nat, uniqueViews: nat)

  /** toDate of a millisecond time; also before the epoch. */
  function Day(ms: int): int {
    ms / 86_400_000
  }

  function UniqueFlag(ev: Event): nat {
    if ev.isUnique then 1 else 0
  }

  /** Counts one event into the group of its day and video. */
  function AddToGroups(groups: seq<Daily>, ev: Event): seq<Daily> {
    if groups == [] then [Daily(Day(ev.eventTime), ev.videoId, 1, UniqueFlag(ev))]
    else
      var g := groups[0];
      if g.day == Day(ev.eventTime) && g.videoId == ev.videoId
      then [g.(views := g.views + 1, uniqueViews := g.uniqueViews + UniqueFlag(ev))] + groups[1..]
      else [g] + AddToGroups(groups[1..], ev)
  }

  /** The materialized view's GROUP BY over one block. */
  function Grouped(block: seq<Event>): seq<Daily> {
    if block == [] then [] else AddToGroups(Grouped(block[..|block| - 1]), block[|block| - 1])
  }

  /** What happens to the roll-up table: a block arrives, or the rows at i < j,
      if they have one key, are merged into one. */
  datatype Op = Insert(block: seq<Event>) | Merge(i: nat, j: nat)

  function Sum(x: Daily, y: Daily): Daily {
    x.(views := x.views + y.views, uniqueViews := x.uniqueViews + y.uniqueViews)
  }

  function Apply(rows: seq<Daily>, op: Op): seq<Daily> {
    match op
    case Insert(block) => rows + Grouped(block)
    case Merge(i, j) =>
      if i < j < |rows| && rows[i].day == rows[j].day && rows[i].videoId == rows[j].videoId
      then rows[..i] + [Sum(rows[i], rows[j])] + rows[i + 1..j] + rows[j + 1..]
      else rows
  }

  function Table(ops: seq<Op>): seq<Daily> {
    if ops == [] then [] else Apply(Table(ops[..|ops| - 1]), ops[|ops| - 1])
  }

  /** What is asked for: a video, on one day or on all of them as in the stats query. */
  datatype Query = Query(video: Uuid, day: Option<int>)

  predicate Asks(q: Query, videoId: Uuid, day: int) {
    videoId == q.video && (q.day.None? || q.day.value == day)
  }

  predicate AsksFor(q: Query, ev: Event) {
    Asks(q, ev.videoId, Day(ev.eventTime))
  }

  /** A day is the 24 hours the time lies in. */
  lemma DayMeans(ms: int, day: int)
    ensures Day(ms) == day <==> day * 86_400_000 <= ms < (day + 1) * 86_400_000
  {}

  /** The summing query. */
  function Views(rows: seq<Daily>, q: Query): nat {
    if rows == [] then 0 else Views(rows[1..], q) + if Asks(q, rows[0].videoId, rows[0].day) then rows[0].views else 0
  }

  function UniqueViews(rows: seq<Daily>, q: Query): nat {
    if rows == [] then 0 else UniqueViews(rows[1..], q) + if Asks(q, rows[0].videoId, rows[0].day) then rows[0].uniqueViews else 0
  }

  // ----- the direct counts -----

  function InsertedBy(ops: seq<Op>): seq<Event> {
    if ops == [] then []
    else InsertedBy(ops[..|ops| - 1]) + if ops[|ops| - 1].Insert? then ops[|ops| - 1].block else []
  }

  function Count(evs: seq<Event>, q: Query): nat {
    if evs == [] then 0
    else Count(evs[..|evs| - 1], q) + if AsksFor(q, evs[|evs| - 1]) then 1 else 0
  }

  function CountUnique(evs: seq<Event>, q: Query): nat {
    if evs == [] then 0
    else
      CountUnique(evs[..|evs| - 1], q) +
      if AsksFor(q, evs[|evs| - 1]) && evs[|evs| - 1].isUnique then 1 else 0
  }

  lemma {:induction false} CountConcat(a: seq<Event>, b: seq<Event>, q: Query)
    ensures Count(a + b, q) == Count(a, q) + Count(b, q)
    ensures CountUnique(a + b, q) == CountUnique(a, q) + CountUnique(b, q)
  {
    if b == [] {
      assert a + b == a;
    } else {
      assert (a + b)[..|a + b| - 1] == a + b[..|b| - 1];
      CountConcat(a, b[..|b| - 1], q);
    }
  }

  lemma {:induction false} ViewsConcat(a: seq<Daily>, b: seq<Daily>, q: Query)
    ensures Views(a + b, q) == Views(a, q) + Views(b, q)
    ensures UniqueViews(a + b, q) == UniqueViews(a, q) + UniqueViews(b, q)
  {
    if a == [] {
      assert a + b == b;
    } else {
      assert (a + b)[1..] == a[1..] + b;
      ViewsConcat(a[1..], b, q);
    }
  }

  lemma {:induction false} GroupCounts(groups: seq<Daily>, ev: Event, q: Query)
    ensures Views(AddToGroups(groups, ev), q) == Views(groups, q) + if AsksFor(q, ev) then 1 else 0
    ensures UniqueViews(AddToGroups(groups, ev), q) ==
            UniqueViews(groups, q) + if AsksFor(q, ev) then UniqueFlag(ev) else 0
  {
    var after := AddToGroups(groups, ev);
    if groups != [] {
      var g := groups[0];
      if g.day == Day(ev.eventTime) && g.videoId == ev.videoId {
        assert after[1..] == groups[1..];
      } else {
        GroupCounts(groups[1..], ev, q);
        assert after[1..] == AddToGroups(groups[1..], ev);
      }
    }
  }

  lemma {:induction false} BlockCounts(block: seq<Event>, q: Query)
    ensures Views(Grouped(block), q) == Count(block, q)
    ensures UniqueViews(Grouped(block), q) == CountUnique(block, q)
  {
    if block != [] {
      BlockCounts(block[..|block| - 1], q);
      GroupCounts(Grouped(block[..|block| - 1]), block[|block| - 1], q);
    }
  }

  lemma OneRow(r: Daily, q: Query)
    ensures Views([r], q) == if Asks(q, r.videoId, r.day) then r.views else 0
    ensures UniqueViews([r], q) == if Asks(q, r.videoId, r.day) then r.uniqueViews else 0
  {
    assert [r][1..] == [];
  }

  lemma SplitAtTwo(rows: seq<Daily>, i: nat, j: nat)
    requires i < j < |rows|
    ensures rows == rows[..i] + [rows[i]] + rows[i + 1..j] + [rows[j]] + rows[j + 1..]
  {}

  /** A background merge changes no sum. */
  lemma MergeKeepsSums(rows: seq<Daily>, i: nat, j: nat, q: Query)
    ensures Views(Apply(rows, Merge(i, j)), q) == Views(rows, q)
    ensures UniqueViews(Apply(rows, Merge(i, j)), q) == UniqueViews(rows, q)
  {
    if i < j < |rows| && rows[i].day == rows[j].day && rows[i].videoId == rows[j].videoId {
      var a, b, c := rows[..i], rows[i + 1..j], rows[j + 1..];
      SplitAtTwo(rows, i, j);
      MergedParts(rows, a, rows[i], b, rows[j], c, q);
      assert Apply(rows, Merge(i, j)) == a + [Sum(rows[i], rows[j])] + b + c;
    }
  }

  lemma MergedParts(rows: seq<Daily>, a: seq<Daily>, x: Daily, b: seq<Daily>, y: Daily, c: seq<Daily>, q: Query)
    requires x.videoId == y.videoId && x.day == y.day && rows == a + [x] + b + [y] + c
    ensures Views(a + [Sum(x, y)] + b + c, q) == Views(rows, q)
    ensures UniqueViews(a + [Sum(x, y)] + b + c, q) == UniqueViews(rows, q)
  {
    FiveParts(a, x, b, y, c, q);
    FourParts(a, Sum(x, y), b, c, q);
  }

  lemma FourParts(a: seq<Daily>, x: Daily, b: seq<Daily>, c: seq<Daily>, q: Query)
    ensures Views(a + [x] + b + c, q) == Views(a, q) + (if Asks(q, x.videoId, x.day) then x.views else 0) + Views(b, q) + Views(c, q)
    ensures UniqueViews(a + [x] + b + c, q) ==
            UniqueViews(a, q) + (if Asks(q, x.videoId, x.day) then x.uniqueViews else 0) + UniqueViews(b, q) + UniqueViews(c, q)
  {
    ViewsConcat(a, [x], q);
    ViewsConcat(a + [x], b, q);
    ViewsConcat(a + [x] + b, c, q);
    OneRow(x, q);
  }

  lemma FiveParts(a: seq<Daily>, x: Daily, b: seq<Daily>, y: Daily, c: seq<Daily>, q: Query)
    ensures Views(a + [x] + b + [y] + c, q) ==
            Views(a, q) + (if Asks(q, x.videoId, x.day) then x.views else 0) + Views(b, q) + (if Asks(q, y.videoId, y.day) then y.views else 0) + Views(c, q)
    ensures UniqueViews(a + [x] + b + [y] + c, q) ==
            UniqueViews(a, q) + (if Asks(q, x.videoId, x.day) then x.uniqueViews else 0) + UniqueViews(b, q)
            + (if Asks(q, y.videoId, y.day) then y.uniqueViews else 0) + UniqueViews(c, q)
  {
    FourParts(a, x, b, [y], q);
    OneRow(y, q);
    ViewsConcat(a + [x] + b + [y], c, q);
  }

  lemma {:induction false} UniqueAtMostAll(evs: seq<Event>, q: Query)
    ensures CountUnique(evs, q) <= Count(evs, q)
  {
    if evs != [] {
      UniqueAtMostAll(evs[..|evs| - 1], q);
    }
  }

  /** After any inserts with any merges in between, the query returns the number
      of inserted events of the video and of its unique ones. */
  lemma {:induction false} RollupIsExact(ops: seq<Op>, q: Query)
    ensures Views(Table(ops), q) == Count(InsertedBy(ops), q)
    ensures UniqueViews(Table(ops), q) == CountUnique(InsertedBy(ops), q)
    ensures UniqueViews(Table(ops), q) <= Views(Table(ops), q)
  {
    UniqueAtMostAll(InsertedBy(ops), q);
    if ops != [] {
      var before, op := ops[..|ops| - 1], ops[|ops| - 1];
      RollupIsExact(before, q);
      match op
      case Insert(block) =>
        BlockCounts(block, q);
        ViewsConcat(Table(before), Grouped(block), q);
        CountConcat(InsertedBy(before), block, q);
      case Merge(i, j) =>
        MergeKeepsSums(Table(before), i, j, q);
        assert InsertedBy(before) + [] == InsertedBy(before);
    }
  }

  // ----- from the API to the stats query -----

  /** The stream that a run of Track calls on an empty stream leaves, with its
      entry ids. */
  function Messages(stream: seq<T.Fields>): (ms: seq<Message>)
    ensures |ms| == |stream| && forall i :: 0 <= i < |ms| ==> ms[i] == Message(i, stream[i])
  {
    seq(|stream|, i requires 0 <= i < |stream| => Message(i, stream[i]))
  }

  /** The action counts a view of the video, on the day asked for. */
  predicate CountsView(y: T.System, a: T.Action, q: Query) {
    a.Do? && a.op.Append? && !a.op.fails && a.id in y.calls && y.calls[a.id].stage.Marked? && Asks(q, y.calls[a.id].input.videoId, Day(a.op.now))
  }

  /** The views asked for that the first k actions of a run count, and those of them
      answered as unique. */
  function AcceptedViews(y: T.System, s: T.Settings, actions: seq<T.Action>, k: nat, q: Query): (nat, nat)
    requires k <= |actions|
  {
    if k == 0 then (0, 0)
    else
      var (z, a) := (T.At(y, s, actions, k - 1), actions[k - 1]);
      var (n, u) := AcceptedViews(y, s, actions, k - 1, q);
      (n + (if CountsView(z, a, q) then 1 else 0),
       u + if CountsView(z, a, q) && z.calls[a.id].stage.isUnique then 1 else 0)
  }

  lemma MessagesSnoc(stream: seq<T.Fields>, f: T.Fields)
    ensures Messages(stream + [f]) == Messages(stream) + [Message(|stream|, f)]
  {}

  lemma CountSnoc(evs: seq<Event>, ev: Event, q: Query)
    ensures Count(evs + [ev], q) == Count(evs, q) + if AsksFor(q, ev) then 1 else 0
    ensures CountUnique(evs + [ev], q) == CountUnique(evs, q) + if AsksFor(q, ev) && ev.isUnique then 1 else 0
  {
    assert (evs + [ev])[..|evs|] == evs;
  }

  /** One more stream entry, as Track writes it. */
  lemma EntryCounts(stream: seq<T.Fields>, i: T.Input, isUnique: bool, now: int, q: Query)
    requires IsInt64(now)
    ensures var (a, b) := (Parsed(Messages(stream)), Parsed(Messages(stream + [T.Encode(i, isUnique, now)])));
            && Count(b, q) == Count(a, q) + (if Asks(q, i.videoId, Day(now)) then 1 else 0)
            && CountUnique(b, q) == CountUnique(a, q) + if Asks(q, i.videoId, Day(now)) && isUnique then 1 else 0
  {
    var f, id := T.Encode(i, isUnique, now), |stream|;
    EntriesRoundTrip(id, i, isUnique, now);
    MessagesSnoc(stream, f);
    ParsedSnoc(Messages(stream), Message(id, f));
    CountSnoc(Parsed(Messages(stream)), ParseEvent(Message(id, f)).value, q);
  }

  predicate Int64Time(a: T.Action) {
    a.Do? && a.op.Append? ==> IsInt64(a.op.now)
  }

  lemma StepCounts(y: T.System, s: T.Settings, a: T.Action, q: Query)
    requires Int64Time(a)
    ensures var (before, after) := (Parsed(Messages(y.redis.stream)), Parsed(Messages(T.Step(y, s, a).redis.stream)));
            && Count(after, q) == Count(before, q) + (if CountsView(y, a, q) then 1 else 0)
            && CountUnique(after, q) ==
               CountUnique(before, q) + if CountsView(y, a, q) && y.calls[a.id].stage.isUnique then 1 else 0
  {
    if a.Do? && a.id in y.calls {
      var c := y.calls[a.id];
      T.WorkEffects(y.redis, s, c, a.op);
      if a.op.Append? && !a.op.fails && c.stage.Marked? {
        EntryCounts(y.redis.stream, c.input, c.stage.isUnique, a.op.now, q);
      }
    }
  }

  /** What the API counts, however its calls interleave, is what the worker will
      parse, view for view. */
  lemma {:induction false} StreamHoldsTheAccepted(y: T.System, s: T.Settings, actions: seq<T.Action>, k: nat, q: Query)
    requires k <= |actions| && forall a :: a in actions ==> Int64Time(a)
    ensures var (before, after) := (Parsed(Messages(y.redis.stream)), Parsed(Messages(T.At(y, s, actions, k).redis.stream)));
            var (n, u) := AcceptedViews(y, s, actions, k, q);
            Count(after, q) == Count(before, q) + n && CountUnique(after, q) == CountUnique(before, q) + u
  {
    if k > 0 {
      StreamHoldsTheAccepted(y, s, actions, k - 1, q);
      assert actions[k - 1] in actions;
      StepCounts(T.At(y, s, actions, k - 1), s, actions[k - 1], q);
    }
  }

  /** Over any number of worker processes, the inserted rows and the lost batches
      count what was delivered. */
  lemma {:induction false} SessionsCount(cfg: ViewWorker.Config, xs: seq<Session>, q: Query)
    ensures var (rows, lost, all) := (Rows(AllEffects(cfg, xs)), Lost(cfg, xs), Parsed(AllDelivered(cfg, xs)));
            && Count(rows, q) + Count(lost, q) == Count(all, q)
            && CountUnique(rows, q) + CountUnique(lost, q) == CountUnique(all, q)
  {
    if xs != [] {
      var init, x := xs[..|xs| - 1], xs[|xs| - 1];
      SessionsCount(cfg, init, q);
      RunConserves(cfg, x.start, x.ticks);
      OneSessionCounts(AllEffects(cfg, init), Lost(cfg, init), AllDelivered(cfg, init),
                       EndOf(cfg, x), Delivered(Fresh(x.start), cfg, x.ticks), q);
    }
  }

  lemma OneSessionCounts(effects: seq<Effect>, lost: seq<Event>, delivered: seq<Message>, st: State, more: seq<Message>, q: Query)
    requires Conserved(st, more)
    requires Count(Rows(effects), q) + Count(lost, q) == Count(Parsed(delivered), q)
    requires CountUnique(Rows(effects), q) + CountUnique(lost, q) == CountUnique(Parsed(delivered), q)
    ensures Count(Rows(effects + st.effects), q) + Count(lost + st.batch, q) == Count(Parsed(delivered + more), q)
    ensures CountUnique(Rows(effects + st.effects), q) + CountUnique(lost + st.batch, q) ==
            CountUnique(Parsed(delivered + more), q)
  {
    RowsConcat(effects, st.effects);
    ParsedConcat(delivered, more);
    CountConcat(Rows(effects), Rows(st.effects), q);
    CountConcat(lost, st.batch, q);
    CountConcat(Rows(st.effects), st.batch, q);
    CountConcat(Parsed(delivered), Parsed(more), q);
  }

  /** End to end: once the worker's processes were handed the whole stream, the
      stats query counts exactly the views that Track accepted, total and unique,
      except those in the memory of a process that stopped or crashed, whatever
      failed or was retried on the way and however the roll-up was merged. */
  lemma AcceptedViewsAreCounted(y: T.System, s: T.Settings, actions: seq<T.Action>, cfg: ViewWorker.Config,
                                                  xs: seq<Session>, ops: seq<Op>, q: Query)
    requires y.redis.stream == [] && forall a :: a in actions ==> Int64Time(a)
    requires AllDelivered(cfg, xs) == Messages(T.At(y, s, actions, |actions|).redis.stream)
    requires InsertedBy(ops) == Rows(AllEffects(cfg, xs))
    ensures var (n, u) := AcceptedViews(y, s, actions, |actions|, q);
            && Views(Table(ops), q) + Count(Lost(cfg, xs), q) == n
            && UniqueViews(Table(ops), q) + CountUnique(Lost(cfg, xs), q) == u
  {
    StreamHoldsTheAccepted(y, s, actions, |actions|, q);
    assert Parsed(Messages(y.redis.stream)) == [];
    SessionsCount(cfg, xs, q);
    RollupIsExact(ops, q);
  }
}
