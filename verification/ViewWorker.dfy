/** The view worker: read stream entries, batch them, insert the batch into the
    sink, acknowledge. */
module ViewWorker {
  import opened Common
  import opened Text
  import opened ViewTrack

  datatype Message = Message(id: nat, values: Fields)

  datatype Event = Event(streamId: nat, videoId: Uuid, viewerId: Option<Uuid>, ipHash: Hash32, uaHash: Hash16,
                         country: string, isUnique: bool, eventTime: int)

  /** parseEvent: None is a malformed entry. */
  function ParseEvent(m: Message): Option<Event> {
    var f := m.values;
    var vid, uid, t := ParseUuid(f.vid), if f.uid == "" then None else ParseUuid(f.uid), ParseInt(f.t);
    if vid.None? || |f.ip| != 32 || |f.ua| != 16 || t.None? then None
    else Some(Event(m.id, vid.value, uid, f.ip, f.ua, f.c, f.u == "1", t.value))
  }

  /** Every entry that Track appends is well formed for the worker and carries
      the view unchanged. */
  lemma EntriesRoundTrip(id: nat, i: Input, isUnique: bool, ts: int)
    requires IsInt64(ts)
    ensures ParseEvent(Message(id, Encode(i, isUnique, ts))) ==
            Some(Event(id, i.videoId, i.viewerId, i.ipHash, i.uaHash, i.country, isUnique, ts))
  {
    IntRoundTrip(ts);
    assert "0"[0] != "1"[0];
  }

  /** An entry is malformed if and only if the video id, a hash length or the time
      is; a viewer id that cannot be read makes the view anonymous. */
  lemma ParsesIff(m: Message)
    ensures ParseEvent(m).Some? <==>
              ParseUuid(m.values.vid).Some? && |m.values.ip| == 32 && |m.values.ua| == 16 && ParseInt(m.values.t).Some?
    ensures ParseEvent(m).Some? ==>
              var ev := ParseEvent(m).value;
              && ev.streamId == m.id && (ev.isUnique <==> m.values.u == "1")
              && (ev.viewerId.None? <==> m.values.uid == "" || ParseUuid(m.values.uid).None?)
  {}

  // ----- the loop -----

  /** What one XREADGROUP call gives the loop. */
  datatype Read = Entries(messages: seq<Message>) | Nothing | Broken | Canceled

  /** One iteration: the read, the clock at the flush check, and which of the
      insert, the batch XACK and the XACKs of malformed entries go through. */
  datatype Tick = Tick(read: Read, now: int, insertOk: bool, ackOk: bool, dropOk: bool)

  /** Effects outside the process, in order. */
  datatype Effect = Inserted(rows: seq<Event>) | Acked(ids: seq<nat>)

  datatype State = State(batch: seq<Event>, ids: seq<nat>, lastFlush: int, effects: seq<Effect>, stopped: bool)

  type Positive = n: int | n > 0 witness 1

  datatype Config = Config(flushSize: Positive, flushIntervalMs: Positive)

  function Collect(st: State, m: Message, dropOk: bool): State {
    match ParseEvent(m)
    case Some(ev) => st.(batch := st.batch + [ev], ids := st.ids + [m.id])
    case None => if dropOk then st.(effects := st.effects + [Acked([m.id])]) else st
  }

  function CollectAll(st: State, ms: seq<Message>, dropOk: bool): State {
    if ms == [] then st else Collect(CollectAll(st, ms[..|ms| - 1], dropOk), ms[|ms| - 1], dropOk)
  }

  /** A failed insert keeps the batch; a failed XACK after an insert does not. */
  function Flush(st: State, insertOk: bool, ackOk: bool): State {
    if st.batch == [] || !insertOk then st
    else st.(batch := [], ids := [],
             effects := st.effects + [Inserted(st.batch)] + if ackOk then [Acked(st.ids)] else [])
  }

  predicate Due(st: State, cfg: Config, now: int) {
    |st.batch| >= cfg.flushSize || (|st.batch| > 0 && now - st.lastFlush >= cfg.flushIntervalMs)
  }

  function Iterate(st: State, cfg: Config, t: Tick): State {
    if st.stopped then st
    else match t.read
      case Canceled => Flush(st, t.insertOk, t.ackOk).(stopped := true)
      case Broken => st
      case _ =>
        var st' := if t.read.Entries? then CollectAll(st, t.read.messages, t.dropOk) else st;
        if Due(st', cfg, t.now) then Flush(st', t.insertOk, t.ackOk).(lastFlush := t.now) else st'
  }

  function RunTicks(st: State, cfg: Config, ticks: seq<Tick>): State {
    if ticks == [] then st else Iterate(RunTicks(st, cfg, ticks[..|ticks| - 1]), cfg, ticks[|ticks| - 1])
  }

  /** The worker object. */
  class Worker {
    const cfg: Config
    var batch: seq<Event>
    var batchIDs: seq<nat>
    var lastFlush: int
    var effects: seq<Effect>
    var stopped: bool

    function Snapshot(): State
      reads this
    {
      State(batch, batchIDs, lastFlush, effects, stopped)
    }

    constructor (cfg: Config, now: int)
      ensures this.cfg == cfg && Snapshot() == Fresh(now)
    {
      this.cfg := cfg;
      batch, batchIDs, lastFlush, effects, stopped := [], [], now, [], false;
    }

    method DoFlush(insertOk: bool, ackOk: bool)
      modifies this
      ensures Snapshot() == Flush(old(Snapshot()), insertOk, ackOk)
    {
      if batch == [] || !insertOk {
        return;
      }
      effects := effects + [Inserted(batch)];
      if ackOk {
        effects := effects + [Acked(batchIDs)];
      }
      batch, batchIDs := [], [];
    }

    method Append(ms: seq<Message>, dropOk: bool)
      modifies this
      ensures Snapshot() == CollectAll(old(Snapshot()), ms, dropOk)
    {
      ghost var st := Snapshot();
      for k := 0 to |ms|
        invariant Snapshot() == CollectAll(st, ms[..k], dropOk)
      {
        assert ms[..k + 1][..k] == ms[..k];
        var ev := ParseEvent(ms[k]);
        if ev.None? {
          if dropOk {
            effects := effects + [Acked([ms[k].id])];
          }
        } else {
          batch := batch + [ev.value];
          batchIDs := batchIDs + [ms[k].id];
        }
      }
      assert ms[..|ms|] == ms;
    }

    method Loop(ticks: seq<Tick>)
      modifies this
      ensures Snapshot() == RunTicks(old(Snapshot()), cfg, ticks)
    {
      ghost var st := Snapshot();
      for k := 0 to |ticks|
        invariant Snapshot() == RunTicks(st, cfg, ticks[..k])
      {
        assert ticks[..k + 1][..k] == ticks[..k];
        if stopped {
          continue;
        }
        var t := ticks[k];
        match t.read {
          case Canceled =>
            DoFlush(t.insertOk, t.ackOk);
            stopped := true;
            continue;
          case Broken =>
            continue;
          case Entries(ms) =>
            Append(ms, t.dropOk);
          case Nothing =>
        }
        if |batch| >= cfg.flushSize || (|batch| > 0 && t.now - lastFlush >= cfg.flushIntervalMs) {
          DoFlush(t.insertOk, t.ackOk);
          lastFlush := t.now;
        }
      }
      assert ticks[..|ticks|] == ticks;
    }
  }

  // ----- what happened to the entries -----

  /** All entries the loop was handed. */
  function Delivered(st: State, cfg: Config, ticks: seq<Tick>): seq<Message> {
    if ticks == [] then []
    else
      var n := |ticks| - 1;
      Delivered(st, cfg, ticks[..n]) +
      if ticks[n].read.Entries? && !RunTicks(st, cfg, ticks[..n]).stopped then ticks[n].read.messages else []
  }

  /** The well-formed ones, parsed, in order. */
  function Parsed(ms: seq<Message>): seq<Event> {
    if ms == [] then []
    else
      var ev := ParseEvent(ms[|ms| - 1]);
      Parsed(ms[..|ms| - 1]) + if ev.Some? then [ev.value] else []
  }

  /** All rows inserted, in order. */
  function Rows(effects: seq<Effect>): seq<Event> {
    if effects == [] then []
    else
      var e := effects[|effects| - 1];
      Rows(effects[..|effects| - 1]) + if e.Inserted? then e.rows else []
  }

  lemma {:induction false} ParsedConcat(a: seq<Message>, b: seq<Message>)
    ensures Parsed(a + b) == Parsed(a) + Parsed(b)
  {
    if b == [] {
      assert a + b == a;
    } else {
      assert (a + b)[..|a + b| - 1] == a + b[..|b| - 1];
      ParsedConcat(a, b[..|b| - 1]);
    }
  }

  lemma RowsSnoc(effects: seq<Effect>, e: Effect)
    ensures Rows(effects + [e]) == Rows(effects) + if e.Inserted? then e.rows else []
  {
    assert (effects + [e])[..|effects|] == effects;
  }

  /** An id may be acknowledged at position k: it was inserted before, or is that
      of a malformed delivered entry. */
  predicate Settled(effects: seq<Effect>, k: nat, delivered: seq<Message>, id: nat)
    requires k <= |effects|
  {
    || (exists j :: 0 <= j < |Rows(effects[..k])| && Rows(effects[..k])[j].streamId == id)
    || (exists j :: 0 <= j < |delivered| && delivered[j].id == id && ParseEvent(delivered[j]).None?)
  }

  predicate AcksSettled(effects: seq<Effect>, delivered: seq<Message>) {
    forall k, i :: 0 <= k < |effects| && effects[k].Acked? && 0 <= i < |effects[k].ids| ==>
      Settled(effects, k, delivered, effects[k].ids[i])
  }

  predicate Aligned(st: State) {
    |st.batch| == |st.ids| && forall i :: 0 <= i < |st.ids| ==> st.ids[i] == st.batch[i].streamId
  }

  predicate Conserved(st: State, delivered: seq<Message>) {
    && Aligned(st)
    && Rows(st.effects) + st.batch == Parsed(delivered)
    && AcksSettled(st.effects, delivered)
  }

  lemma AcksSettledLater(effects: seq<Effect>, e: Effect, delivered: seq<Message>, more: seq<Message>)
    requires AcksSettled(effects, delivered)
    requires e.Acked? ==> forall i :: 0 <= i < |e.ids| ==> Settled(effects, |effects|, delivered + more, e.ids[i])
    ensures AcksSettled(effects + [e], delivered + more)
  {
    var after := effects + [e];
    forall k, i | 0 <= k < |after| && after[k].Acked? && 0 <= i < |after[k].ids|
      ensures Settled(after, k, delivered + more, after[k].ids[i])
    {
      assert after[..k] == effects[..k];
      if k < |effects| {
        assert Settled(effects, k, delivered, effects[k].ids[i]);
        if j :| 0 <= j < |delivered| && delivered[j].id == after[k].ids[i] && ParseEvent(delivered[j]).None? {
          assert (delivered + more)[j] == delivered[j];
        }
      }
    }
  }

  lemma AcksStaySettled(effects: seq<Effect>, delivered: seq<Message>, more: seq<Message>)
    requires AcksSettled(effects, delivered)
    ensures AcksSettled(effects, delivered + more)
  {
    forall k, i | 0 <= k < |effects| && effects[k].Acked? && 0 <= i < |effects[k].ids|
      ensures Settled(effects, k, delivered + more, effects[k].ids[i])
    {
      assert Settled(effects, k, delivered, effects[k].ids[i]);
      if j :| 0 <= j < |delivered| && delivered[j].id == effects[k].ids[i] && ParseEvent(delivered[j]).None? {
        assert (delivered + more)[j] == delivered[j];
      }
    }
  }

  lemma ParsedSnoc(ms: seq<Message>, m: Message)
    ensures Parsed(ms + [m]) == Parsed(ms) + if ParseEvent(m).Some? then [ParseEvent(m).value] else []
  {
    assert (ms + [m])[..|ms|] == ms;
  }

  lemma WellFormedConserves(st: State, m: Message, dropOk: bool, delivered: seq<Message>)
    requires Conserved(st, delivered) && ParseEvent(m).Some?
    ensures Conserved(Collect(st, m, dropOk), delivered + [m])
  {
    var ev := ParseEvent(m).value;
    ParsedSnoc(delivered, m);
    AcksStaySettled(st.effects, delivered, [m]);
    assert Rows(st.effects) + (st.batch + [ev]) == Rows(st.effects) + st.batch + [ev];
  }

  lemma MalformedConserves(st: State, m: Message, dropOk: bool, delivered: seq<Message>)
    requires Conserved(st, delivered) && ParseEvent(m).None?
    ensures Conserved(Collect(st, m, dropOk), delivered + [m])
  {
    ParsedSnoc(delivered, m);
    if dropOk {
      assert Settled(st.effects, |st.effects|, delivered + [m], m.id) by {
        assert (delivered + [m])[|delivered|] == m;
      }
      AcksSettledLater(st.effects, Acked([m.id]), delivered, [m]);
      RowsSnoc(st.effects, Acked([m.id]));
    } else {
      AcksStaySettled(st.effects, delivered, [m]);
    }
  }

  lemma CollectConserves(st: State, m: Message, dropOk: bool, delivered: seq<Message>)
    requires Conserved(st, delivered)
    ensures Conserved(Collect(st, m, dropOk), delivered + [m])
  {
    if ParseEvent(m).Some? {
      WellFormedConserves(st, m, dropOk, delivered);
    } else {
      MalformedConserves(st, m, dropOk, delivered);
    }
  }

  lemma {:induction false} CollectAllConserves(st: State, ms: seq<Message>, dropOk: bool, delivered: seq<Message>)
    requires Conserved(st, delivered)
    ensures Conserved(CollectAll(st, ms, dropOk), delivered + ms)
    ensures CollectAll(st, ms, dropOk).stopped == st.stopped && CollectAll(st, ms, dropOk).lastFlush == st.lastFlush
  {
    if ms == [] {
      assert delivered + ms == delivered;
    } else {
      var init, m := ms[..|ms| - 1], ms[|ms| - 1];
      CollectAllConserves(st, init, dropOk, delivered);
      CollectConserves(CollectAll(st, init, dropOk), m, dropOk, delivered + init);
      assert delivered + init + [m] == delivered + ms;
    }
  }

  lemma InsertedAreSettled(st: State, delivered: seq<Message>, i: nat)
    requires Aligned(st) && i < |st.ids|
    ensures Settled(st.effects + [Inserted(st.batch)], |st.effects| + 1, delivered, st.ids[i])
  {
    var after := st.effects + [Inserted(st.batch)];
    RowsSnoc(st.effects, Inserted(st.batch));
    assert after[..|after|] == after;
    assert Rows(after)[|Rows(st.effects)| + i] == st.batch[i];
  }

  lemma FlushConserves(st: State, insertOk: bool, ackOk: bool, delivered: seq<Message>)
    requires Conserved(st, delivered)
    ensures Conserved(Flush(st, insertOk, ackOk), delivered)
  {
    if st.batch != [] && insertOk {
      var after := st.effects + [Inserted(st.batch)];
      assert delivered + [] == delivered;
      RowsSnoc(st.effects, Inserted(st.batch));
      AcksSettledLater(st.effects, Inserted(st.batch), delivered, []);
      if ackOk {
        forall i | 0 <= i < |st.ids|
          ensures Settled(after, |after|, delivered + [], st.ids[i])
        {
          InsertedAreSettled(st, delivered, i);
        }
        RowsSnoc(after, Acked(st.ids));
        AcksSettledLater(after, Acked(st.ids), delivered, []);
        assert after + [Acked(st.ids)] == Flush(st, insertOk, ackOk).effects;
      } else {
        assert after + [] == Flush(st, insertOk, ackOk).effects == after;
      }
    }
  }

  /** In every run, with any pattern of failed reads, inserts and XACKs: the
      inserted rows followed by the in-memory batch are exactly the well-formed
      delivered entries in order; ids stay aligned with the batch; and nothing
      is acknowledged before it was inserted, unless it is malformed. */
  lemma {:induction false} RunConserves(cfg: Config, now: int, ticks: seq<Tick>)
    ensures var st0 := Fresh(now);
            Conserved(RunTicks(st0, cfg, ticks), Delivered(st0, cfg, ticks))
  {
    if ticks != [] {
      var n := |ticks| - 1;
      RunConserves(cfg, now, ticks[..n]);
      var st0 := Fresh(now);
      IterateConserves(RunTicks(st0, cfg, ticks[..n]), cfg, ticks[n], Delivered(st0, cfg, ticks[..n]));
    }
  }

  lemma IterateConserves(st: State, cfg: Config, t: Tick, delivered: seq<Message>)
    requires Conserved(st, delivered)
    ensures Conserved(Iterate(st, cfg, t),
                      delivered + if t.read.Entries? && !st.stopped then t.read.messages else [])
  {
    assert delivered + [] == delivered;
    if !st.stopped {
      match t.read
      case Canceled => FlushConserves(st, t.insertOk, t.ackOk, delivered);
      case Broken =>
      case Nothing => FlushConserves(st, t.insertOk, t.ackOk, delivered);
      case Entries(ms) =>
        CollectAllConserves(st, ms, t.dropOk, delivered);
        FlushConserves(CollectAll(st, ms, t.dropOk), t.insertOk, t.ackOk, delivered + ms);
    }
  }

  predicate DistinctIds(ms: seq<Message>) {
    forall i, j :: 0 <= i < j < |ms| ==> ms[i].id != ms[j].id
  }

  predicate DistinctRows(evs: seq<Event>) {
    forall i, j :: 0 <= i < j < |evs| ==> evs[i].streamId != evs[j].streamId
  }

  lemma {:induction false} ParsedIdsComeFrom(ms: seq<Message>, i: nat) returns (j: nat)
    requires i < |Parsed(ms)|
    ensures j < |ms| && Parsed(ms)[i].streamId == ms[j].id && ParseEvent(ms[j]) == Some(Parsed(ms)[i])
  {
    var init := Parsed(ms[..|ms| - 1]);
    if i < |init| {
      j := ParsedIdsComeFrom(ms[..|ms| - 1], i);
    } else {
      j := |ms| - 1;
    }
  }

  lemma {:induction false} ParsedKeepsDistinct(ms: seq<Message>)
    requires DistinctIds(ms)
    ensures DistinctRows(Parsed(ms))
  {
    if ms != [] {
      var init := ms[..|ms| - 1];
      ParsedKeepsDistinct(init);
      forall i | 0 <= i < |Parsed(init)|
        ensures Parsed(init)[i].streamId != ms[|ms| - 1].id
      {
        var j := ParsedIdsComeFrom(init, i);
      }
    }
  }

  /** Entries are delivered once each, so no entry is inserted twice. */
  lemma NothingInsertedTwice(cfg: Config, now: int, ticks: seq<Tick>)
    requires DistinctIds(Delivered(Fresh(now), cfg, ticks))
    ensures DistinctRows(Rows(RunTicks(Fresh(now), cfg, ticks).effects))
  {
    var st0 := Fresh(now);
    RunConserves(cfg, now, ticks);
    ParsedKeepsDistinct(Delivered(st0, cfg, ticks));
    var rows, all := Rows(RunTicks(st0, cfg, ticks).effects), Parsed(Delivered(st0, cfg, ticks));
    assert forall i :: 0 <= i < |rows| ==> rows[i] == all[i];
  }

  /** While inserts succeed the batch stays below the flush size after every
      iteration, so memory is bounded by one read. */
  lemma {:induction false} BatchStaysSmall(cfg: Config, now: int, ticks: seq<Tick>)
    requires forall t :: t in ticks ==> t.insertOk
    ensures |RunTicks(Fresh(now), cfg, ticks).batch| < cfg.flushSize
  {
    if ticks != [] {
      var n := |ticks| - 1;
      BatchStaysSmall(cfg, now, ticks[..n]);
      assert ticks[n] in ticks;
    }
  }

  // ----- when the loop inserts and acknowledges -----

  /** Some XACK names this id. */
  predicate Acks(effects: seq<Effect>, id: nat) {
    exists k, i :: 0 <= k < |effects| && effects[k].Acked? && 0 <= i < |effects[k].ids| && effects[k].ids[i] == id
  }

  lemma {:induction false} RowsConcat(a: seq<Effect>, b: seq<Effect>)
    ensures Rows(a + b) == Rows(a) + Rows(b)
  {
    if b == [] {
      assert a + b == a;
    } else {
      assert (a + b)[..|a + b| - 1] == a + b[..|b| - 1];
      RowsConcat(a, b[..|b| - 1]);
    }
  }

  lemma AcksLast(effects: seq<Effect>, ids: seq<nat>, i: nat)
    requires i < |ids|
    ensures Acks(effects + [Acked(ids)], ids[i])
  {
    assert (effects + [Acked(ids)])[|effects|].ids[i] == ids[i];
  }

  lemma AcksStay(a: seq<Effect>, b: seq<Effect>, id: nat)
    requires Acks(a, id) && a <= b
    ensures Acks(b, id)
  {
    var k, i :| 0 <= k < |a| && a[k].Acked? && 0 <= i < |a[k].ids| && a[k].ids[i] == id;
    assert b[k] == a[k];
  }

  lemma CollectDoes(st: State, m: Message, dropOk: bool)
    ensures var u := Collect(st, m, dropOk);
            && u.batch == st.batch + (if ParseEvent(m).Some? then [ParseEvent(m).value] else [])
            && u.lastFlush == st.lastFlush && u.stopped == st.stopped
            && Rows(u.effects) == Rows(st.effects) && st.effects <= u.effects
            && (ParseEvent(m).None? && dropOk ==> Acks(u.effects, m.id))
  {
    RowsSnoc(st.effects, Acked([m.id]));
    AcksLast(st.effects, [m.id], 0);
    assert Rows(st.effects) + [] == Rows(st.effects) && st.batch + [] == st.batch;
  }

  /** What collecting the entries of a read leaves. */
  lemma {:induction false} CollectAllDoes(st: State, ms: seq<Message>, dropOk: bool)
    ensures var u := CollectAll(st, ms, dropOk);
            && u.batch == st.batch + Parsed(ms) && u.lastFlush == st.lastFlush && u.stopped == st.stopped
            && Rows(u.effects) == Rows(st.effects) && st.effects <= u.effects
  {
    if ms == [] {
      assert st.batch + [] == st.batch;
    } else {
      var init, m := ms[..|ms| - 1], ms[|ms| - 1];
      CollectAllDoes(st, init, dropOk);
      CollectDoes(CollectAll(st, init, dropOk), m, dropOk);
    }
  }

  lemma {:induction false} MalformedIsAcked(st: State, ms: seq<Message>, m: Message)
    requires m in ms && ParseEvent(m).None?
    ensures Acks(CollectAll(st, ms, true).effects, m.id)
  {
    var init, last := ms[..|ms| - 1], ms[|ms| - 1];
    CollectDoes(CollectAll(st, init, true), last, true);
    if m in init {
      MalformedIsAcked(st, init, m);
      AcksStay(CollectAll(st, init, true).effects, CollectAll(st, ms, true).effects, m.id);
    }
  }

  /** What a flush leaves: the whole batch inserted and, if the XACK goes through,
      acknowledged; or everything as it was. */
  lemma FlushDoes(st: State, insertOk: bool, ackOk: bool)
    requires Aligned(st)
    ensures var u := Flush(st, insertOk, ackOk);
            && st.effects <= u.effects && u.lastFlush == st.lastFlush && u.stopped == st.stopped
            && u.batch == (if insertOk then [] else st.batch)
            && Rows(u.effects) == Rows(st.effects) + (if insertOk then st.batch else [])
            && (insertOk && ackOk ==> forall i :: 0 <= i < |st.batch| ==> Acks(u.effects, st.batch[i].streamId))
  {
    assert Rows(st.effects) + [] == Rows(st.effects);
    if st.batch != [] && insertOk {
      var inserted := st.effects + [Inserted(st.batch)];
      RowsSnoc(st.effects, Inserted(st.batch));
      if ackOk {
        RowsSnoc(inserted, Acked(st.ids));
        assert inserted + [Acked(st.ids)] == Flush(st, insertOk, ackOk).effects;
        forall i | 0 <= i < |st.batch|
          ensures Acks(Flush(st, insertOk, ackOk).effects, st.batch[i].streamId)
        {
          AcksLast(inserted, st.ids, i);
        }
      } else {
        assert inserted + [] == Flush(st, insertOk, ackOk).effects == inserted;
      }
    }
  }

  /** The entries of a tick. */
  function Handed(t: Tick): seq<Message> {
    if t.read.Entries? then t.read.messages else []
  }

  /** There is something to insert, and it is enough or has waited long enough. */
  predicate Ripe(cfg: Config, all: seq<Event>, waited: int) {
    all != [] && (|all| >= cfg.flushSize || waited >= cfg.flushIntervalMs)
  }

  /** The state that the flush check sees. */
  function Collected(st: State, t: Tick): State {
    CollectAll(st, Handed(t), t.dropOk)
  }

  lemma IterateIs(st: State, cfg: Config, t: Tick)
    requires !st.stopped && (t.read.Entries? || t.read.Nothing?)
    ensures var v := Collected(st, t);
            && v.batch == st.batch + Parsed(Handed(t)) && v.lastFlush == st.lastFlush && !v.stopped
            && Rows(v.effects) == Rows(st.effects) && st.effects <= v.effects
            && Iterate(st, cfg, t) ==
               if Ripe(cfg, v.batch, t.now - v.lastFlush) then Flush(v, t.insertOk, t.ackOk).(lastFlush := t.now) else v
  {
    CollectAllDoes(st, Handed(t), t.dropOk);
  }

  /** One iteration after a read that brought entries or timed out, from what was
      read: the batch grows by the well-formed entries; it is inserted if and only
      if it is ripe then and the insert goes through; and what is inserted is
      acknowledged if that goes through. */
  lemma TickDoes(st: State, cfg: Config, t: Tick)
    requires Aligned(st) && !st.stopped && (t.read.Entries? || t.read.Nothing?)
    ensures var u := Iterate(st, cfg, t);
            var all := st.batch + Parsed(Handed(t));
            var ripe := Ripe(cfg, all, t.now - st.lastFlush);
            && !u.stopped && st.effects <= u.effects
            && u.batch == (if ripe && t.insertOk then [] else all)
            && Rows(u.effects) == Rows(st.effects) + (if ripe && t.insertOk then all else [])
            && u.lastFlush == (if ripe then t.now else st.lastFlush)
            && (ripe && t.insertOk && t.ackOk ==> forall i :: 0 <= i < |all| ==> Acks(u.effects, all[i].streamId))
  {
    IterateIs(st, cfg, t);
    CollectAligned(st, Handed(t), t.dropOk);
    FlushDoes(Collected(st, t), t.insertOk, t.ackOk);
    assert Rows(st.effects) + [] == Rows(st.effects);
  }

  /** And malformed entries are acknowledged if that goes through. */
  lemma TickDrops(st: State, cfg: Config, t: Tick, m: Message)
    requires Aligned(st) && !st.stopped && t.read.Entries? && t.dropOk
    requires m in t.read.messages && ParseEvent(m).None?
    ensures Acks(Iterate(st, cfg, t).effects, m.id)
  {
    MalformedIsAcked(st, t.read.messages, m);
    IterateIs(st, cfg, t);
    CollectAligned(st, t.read.messages, t.dropOk);
    FlushDoes(Collected(st, t), t.insertOk, t.ackOk);
    AcksStay(Collected(st, t).effects, Iterate(st, cfg, t).effects, m.id);
  }

  lemma {:induction false} CollectAligned(st: State, ms: seq<Message>, dropOk: bool)
    requires Aligned(st)
    ensures Aligned(CollectAll(st, ms, dropOk))
  {
    if ms != [] {
      CollectAligned(st, ms[..|ms| - 1], dropOk);
    }
  }

  /** A stop inserts the batch if the sink takes it, and is the last thing that
      happens; a failed read changes nothing. */
  lemma StopDoes(st: State, cfg: Config, t: Tick)
    requires Aligned(st) && !st.stopped
    ensures t.read.Canceled? ==>
              var u := Iterate(st, cfg, t);
              && u.stopped && u.batch == (if t.insertOk then [] else st.batch)
              && Rows(u.effects) == Rows(st.effects) + (if t.insertOk then st.batch else [])
              && st.effects <= u.effects
              && (t.insertOk && t.ackOk ==> forall i :: 0 <= i < |st.batch| ==> Acks(u.effects, st.batch[i].streamId))
    ensures t.read.Broken? ==> Iterate(st, cfg, t) == st
  {
    FlushDoes(st, t.insertOk, t.ackOk);
  }

  /** The time of the last tick that inserted rows, or the start. */
  function LastInsert(cfg: Config, now: int, ticks: seq<Tick>): int {
    if ticks == [] then now
    else
      var (n, init) := (|ticks| - 1, ticks[..|ticks| - 1]);
      if |Rows(RunTicks(Fresh(now), cfg, ticks).effects)| > |Rows(RunTicks(Fresh(now), cfg, init).effects)|
      then ticks[n].now else LastInsert(cfg, now, init)
  }

  /** While inserts go through, the loop's clock is that of the last insert. */
  lemma {:induction false} FlushClock(cfg: Config, now: int, ticks: seq<Tick>)
    requires forall t :: t in ticks ==> t.insertOk
    ensures var st := RunTicks(Fresh(now), cfg, ticks); !st.stopped ==> st.lastFlush == LastInsert(cfg, now, ticks)
  {
    if ticks != [] {
      var n := |ticks| - 1;
      FlushClock(cfg, now, ticks[..n]);
      RunConserves(cfg, now, ticks[..n]);
      var st := RunTicks(Fresh(now), cfg, ticks[..n]);
      assert ticks[n] in ticks;
      if !st.stopped {
        StopDoes(st, cfg, ticks[n]);
        if ticks[n].read.Entries? || ticks[n].read.Nothing? {
          TickDoes(st, cfg, ticks[n]);
        }
      }
    }
  }

  /** No view waits for long: while inserts go through, after any read that brought
      entries or timed out, a batch that is not empty is smaller than the flush size
      and the last insert is less than the flush interval ago. */
  lemma NoViewWaits(cfg: Config, now: int, ticks: seq<Tick>, t: Tick)
    requires (forall x :: x in ticks ==> x.insertOk) && t.insertOk && (t.read.Entries? || t.read.Nothing?)
    requires !RunTicks(Fresh(now), cfg, ticks).stopped
    ensures var st := RunTicks(Fresh(now), cfg, ticks + [t]);
            st.batch != [] ==> |st.batch| < cfg.flushSize && t.now - LastInsert(cfg, now, ticks + [t]) < cfg.flushIntervalMs
  {
    var all := ticks + [t];
    assert all[..|ticks|] == ticks;
    RunConserves(cfg, now, ticks);
    TickDoes(RunTicks(Fresh(now), cfg, ticks), cfg, t);
    FlushClock(cfg, now, all);
  }

  /** A stop whose insert goes through leaves nothing in memory. */
  lemma StopEmptiesTheBatch(cfg: Config, now: int, ticks: seq<Tick>, t: Tick)
    requires !RunTicks(Fresh(now), cfg, ticks).stopped && t.read.Canceled? && t.insertOk
    ensures RunTicks(Fresh(now), cfg, ticks + [t]).stopped && RunTicks(Fresh(now), cfg, ticks + [t]).batch == []
  {
    assert (ticks + [t])[..|ticks|] == ticks;
    RunConserves(cfg, now, ticks);
    StopDoes(RunTicks(Fresh(now), cfg, ticks), cfg, t);
  }

  /** The id of an inserted row, or of a malformed delivered entry. */
  predicate Done(st: State, delivered: seq<Message>, id: nat) {
    || (exists j :: 0 <= j < |Rows(st.effects)| && Rows(st.effects)[j].streamId == id)
    || (exists j :: 0 <= j < |delivered| && delivered[j].id == id && ParseEvent(delivered[j]).None?)
  }

  /** Whatever the read was: the rows a tick adds are acknowledged with it. */
  lemma StopOrTick(st: State, cfg: Config, t: Tick)
    requires Aligned(st)
    ensures var u := Iterate(st, cfg, t);
            && st.effects <= u.effects && Rows(st.effects) <= Rows(u.effects)
            && (t.ackOk ==> forall j :: |Rows(st.effects)| <= j < |Rows(u.effects)| ==> Acks(u.effects, Rows(u.effects)[j].streamId))
  {
    if !st.stopped {
      StopDoes(st, cfg, t);
      if t.read.Entries? || t.read.Nothing? {
        TickDoes(st, cfg, t);
      }
    }
  }

  lemma DoneIsAckedStep(st: State, cfg: Config, t: Tick, delivered: seq<Message>, id: nat)
    requires Aligned(st) && t.ackOk && t.dropOk && (Done(st, delivered, id) ==> Acks(st.effects, id))
    requires Done(Iterate(st, cfg, t), delivered + if t.read.Entries? && !st.stopped then t.read.messages else [], id)
    ensures Acks(Iterate(st, cfg, t).effects, id)
  {
    var u := Iterate(st, cfg, t);
    var more := if t.read.Entries? && !st.stopped then t.read.messages else [];
    StopOrTick(st, cfg, t);
    if Done(st, delivered, id) {
      AcksStay(st.effects, u.effects, id);
    } else if j :| 0 <= j < |Rows(u.effects)| && Rows(u.effects)[j].streamId == id {
      assert j >= |Rows(st.effects)|;
    } else {
      var j :| 0 <= j < |delivered + more| && (delivered + more)[j].id == id && ParseEvent((delivered + more)[j]).None?;
      assert j >= |delivered|;
      TickDrops(st, cfg, t, more[j - |delivered|]);
    }
  }

  lemma {:induction false} DoneIsAcked(cfg: Config, now: int, ticks: seq<Tick>, id: nat)
    requires forall t :: t in ticks ==> t.ackOk && t.dropOk
    requires Done(RunTicks(Fresh(now), cfg, ticks), Delivered(Fresh(now), cfg, ticks), id)
    ensures Acks(RunTicks(Fresh(now), cfg, ticks).effects, id)
  {
    if ticks != [] {
      var n := |ticks| - 1;
      var st, delivered := RunTicks(Fresh(now), cfg, ticks[..n]), Delivered(Fresh(now), cfg, ticks[..n]);
      RunConserves(cfg, now, ticks[..n]);
      assert ticks[n] in ticks;
      if Done(st, delivered, id) {
        DoneIsAcked(cfg, now, ticks[..n], id);
      }
      DoneIsAckedStep(st, cfg, ticks[n], delivered, id);
    }
  }

  /** While XACKs go through, the acknowledged ids are exactly those of the inserted
      rows and of the malformed entries. */
  lemma AckedIff(cfg: Config, now: int, ticks: seq<Tick>, id: nat)
    requires forall t :: t in ticks ==> t.ackOk && t.dropOk
    ensures Acks(RunTicks(Fresh(now), cfg, ticks).effects, id) <==>
            Done(RunTicks(Fresh(now), cfg, ticks), Delivered(Fresh(now), cfg, ticks), id)
  {
    var st, delivered := RunTicks(Fresh(now), cfg, ticks), Delivered(Fresh(now), cfg, ticks);
    if Done(st, delivered, id) {
      DoneIsAcked(cfg, now, ticks, id);
    }
    if Acks(st.effects, id) {
      RunConserves(cfg, now, ticks);
      var k, i :| 0 <= k < |st.effects| && st.effects[k].Acked? && 0 <= i < |st.effects[k].ids| && st.effects[k].ids[i] == id;
      assert Settled(st.effects, k, delivered, id);
      assert st.effects == st.effects[..k] + st.effects[k..];
      RowsConcat(st.effects[..k], st.effects[k..]);
      if j :| 0 <= j < |Rows(st.effects[..k])| && Rows(st.effects[..k])[j].streamId == id {
        assert Rows(st.effects)[j].streamId == id;
      }
    }
  }

  // ----- restarts -----

  /** The life of one worker process.  It ends when it reads Canceled, or in a
      crash after its last tick; what a crash keeps from happening in that tick is
      an operation that did not go through. */
  datatype Session = Session(start: int, ticks: seq<Tick>)

  function Fresh(now: int): State {
    State([], [], now, [], false)
  }

  function EndOf(cfg: Config, x: Session): State {
    RunTicks(Fresh(x.start), cfg, x.ticks)
  }

  /** What the group hands to the sessions, what they do outside, and what is in
      memory when they end. */
  function AllDelivered(cfg: Config, xs: seq<Session>): seq<Message> {
    if xs == [] then []
    else AllDelivered(cfg, xs[..|xs| - 1]) + Delivered(Fresh(xs[|xs| - 1].start), cfg, xs[|xs| - 1].ticks)
  }

  function AllEffects(cfg: Config, xs: seq<Session>): seq<Effect> {
    if xs == [] then [] else AllEffects(cfg, xs[..|xs| - 1]) + EndOf(cfg, xs[|xs| - 1]).effects
  }

  function Lost(cfg: Config, xs: seq<Session>): seq<Event> {
    if xs == [] then [] else Lost(cfg, xs[..|xs| - 1]) + EndOf(cfg, xs[|xs| - 1]).batch
  }

  /** Process after process: each starts with an empty batch and reads on with
      entries that were not delivered before. */
  method RunSessions(cfg: Config, xs: seq<Session>) returns (effects: seq<Effect>)
    ensures effects == AllEffects(cfg, xs)
  {
    effects := [];
    for k := 0 to |xs|
      invariant effects == AllEffects(cfg, xs[..k])
    {
      assert xs[..k + 1][..k] == xs[..k];
      var worker := new Worker(cfg, xs[k].start);
      worker.Loop(xs[k].ticks);
      effects := effects + worker.effects;
    }
    assert xs[..|xs|] == xs;
  }

  /** Over any number of sessions, every well-formed delivered entry was inserted
      or was in the memory of a session that ended, once. */
  lemma {:induction false} SessionsConserve(cfg: Config, xs: seq<Session>)
    ensures multiset(Rows(AllEffects(cfg, xs))) + multiset(Lost(cfg, xs)) == multiset(Parsed(AllDelivered(cfg, xs)))
  {
    if xs != [] {
      var init, x := xs[..|xs| - 1], xs[|xs| - 1];
      var delivered := Delivered(Fresh(x.start), cfg, x.ticks);
      SessionsConserve(cfg, init);
      RunConserves(cfg, x.start, x.ticks);
      RowsConcat(AllEffects(cfg, init), EndOf(cfg, x).effects);
      ParsedConcat(AllDelivered(cfg, init), delivered);
      assert multiset(Parsed(delivered)) == multiset(Rows(EndOf(cfg, x).effects)) + multiset(EndOf(cfg, x).batch);
    }
  }

  lemma {:induction false} NothingLostIff(cfg: Config, xs: seq<Session>)
    ensures Lost(cfg, xs) == [] <==> forall x :: x in xs ==> EndOf(cfg, x).batch == []
  {
    if xs != [] {
      var n := |xs| - 1;
      NothingLostIff(cfg, xs[..n]);
      assert forall x :: x in xs <==> x in xs[..n] || x == xs[n];
    }
  }

  /** Every well-formed delivered entry is inserted if and only if every session,
      stopped or crashed, ended with an empty batch. */
  lemma AllInsertedIff(cfg: Config, xs: seq<Session>)
    ensures multiset(Parsed(AllDelivered(cfg, xs))) <= multiset(Rows(AllEffects(cfg, xs))) <==>
            forall x :: x in xs ==> EndOf(cfg, x).batch == []
  {
    SessionsConserve(cfg, xs);
    NothingLostIff(cfg, xs);
    if Lost(cfg, xs) != [] {
      var ev := Lost(cfg, xs)[0];
      assert multiset(Lost(cfg, xs))[ev] > 0;
      assert multiset(Parsed(AllDelivered(cfg, xs)))[ev] > multiset(Rows(AllEffects(cfg, xs)))[ev];
    }
  }

  lemma AcksSettledConcat(a: seq<Effect>, b: seq<Effect>, d: seq<Message>, e: seq<Message>)
    requires AcksSettled(a, d) && AcksSettled(b, e)
    ensures AcksSettled(a + b, d + e)
  {
    AcksStaySettled(a, d, e);
    forall k, i | 0 <= k < |a + b| && (a + b)[k].Acked? && 0 <= i < |(a + b)[k].ids|
      ensures Settled(a + b, k, d + e, (a + b)[k].ids[i])
    {
      var id := (a + b)[k].ids[i];
      if k < |a| {
        assert (a + b)[..k] == a[..k];
        assert Settled(a, k, d + e, id);
      } else {
        var h := k - |a|;
        assert (a + b)[..k] == a + b[..h];
        RowsConcat(a, b[..h]);
        assert Settled(b, h, e, id);
        if j :| 0 <= j < |Rows(b[..h])| && Rows(b[..h])[j].streamId == id {
          assert Rows((a + b)[..k])[|Rows(a)| + j].streamId == id;
        } else {
          var j :| 0 <= j < |e| && e[j].id == id && ParseEvent(e[j]).None?;
          assert (d + e)[|d| + j] == e[j];
        }
      }
    }
  }

  lemma {:induction false} SessionsSettleAcks(cfg: Config, xs: seq<Session>)
    ensures AcksSettled(AllEffects(cfg, xs), AllDelivered(cfg, xs))
  {
    if xs != [] {
      var init, x := xs[..|xs| - 1], xs[|xs| - 1];
      SessionsSettleAcks(cfg, init);
      RunConserves(cfg, x.start, x.ticks);
      AcksSettledConcat(AllEffects(cfg, init), EndOf(cfg, x).effects,
                        AllDelivered(cfg, init), Delivered(Fresh(x.start), cfg, x.ticks));
    }
  }

  lemma OneRowPerId(q: seq<Event>, a: Event, b: Event)
    requires DistinctRows(q) && a in q && b in q && a.streamId == b.streamId
    ensures a == b && multiset(q)[a] == 1
  {
    var i :| 0 <= i < |q| && q[i] == a;
    var x, y := q[..i], q[i + 1..];
    assert q == x + [a] + y;
    assert a !in x && a !in y;
    assert multiset(q) == multiset(x) + multiset{a} + multiset(y);
  }

  lemma LostIsNotInserted(rows: seq<Event>, lost: seq<Event>, all: seq<Event>, ev: Event)
    requires DistinctRows(all) && multiset(rows) + multiset(lost) == multiset(all) && ev in lost
    ensures ev in all && forall j :: 0 <= j < |rows| ==> rows[j].streamId != ev.streamId
  {
    assert ev in multiset(all);
    forall j | 0 <= j < |rows|
      ensures rows[j].streamId != ev.streamId
    {
      assert multiset(rows)[rows[j]] >= 1 && multiset(lost)[ev] >= 1;
      assert rows[j] in multiset(all);
      if rows[j].streamId == ev.streamId {
        OneRowPerId(all, rows[j], ev);
        assert false;
      }
    }
  }

  lemma LostIsWellFormed(delivered: seq<Message>, ev: Event, j: nat)
    requires DistinctIds(delivered) && ev in Parsed(delivered) && j < |delivered| && delivered[j].id == ev.streamId
    ensures ParseEvent(delivered[j]).Some?
  {
    var h :| 0 <= h < |Parsed(delivered)| && Parsed(delivered)[h] == ev;
    var g := ParsedIdsComeFrom(delivered, h);
  }

  lemma NotSettled(effects: seq<Effect>, k: nat, delivered: seq<Message>, lost: seq<Event>, ev: Event)
    requires DistinctIds(delivered) && ev in lost && k <= |effects|
    requires multiset(Rows(effects)) + multiset(lost) == multiset(Parsed(delivered))
    ensures !Settled(effects, k, delivered, ev.streamId)
  {
    ParsedKeepsDistinct(delivered);
    LostIsNotInserted(Rows(effects), lost, Parsed(delivered), ev);
    assert effects == effects[..k] + effects[k..];
    RowsConcat(effects[..k], effects[k..]);
    forall j | 0 <= j < |Rows(effects[..k])|
      ensures Rows(effects[..k])[j].streamId != ev.streamId
    {
      assert Rows(effects)[j] == Rows(effects[..k])[j];
    }
    forall j | 0 <= j < |delivered| && delivered[j].id == ev.streamId
      ensures ParseEvent(delivered[j]).Some?
    {
      LostIsWellFormed(delivered, ev, j);
    }
  }

  /** A lost entry is never acknowledged by anyone: it stays pending for good,
      since no session asks for pending entries. */
  lemma LostIsNeverAcked(cfg: Config, xs: seq<Session>, ev: Event)
    requires DistinctIds(AllDelivered(cfg, xs)) && ev in Lost(cfg, xs)
    ensures !Acks(AllEffects(cfg, xs), ev.streamId)
  {
    var effects, delivered := AllEffects(cfg, xs), AllDelivered(cfg, xs);
    SessionsConserve(cfg, xs);
    SessionsSettleAcks(cfg, xs);
    forall k, i | 0 <= k < |effects| && effects[k].Acked? && 0 <= i < |effects[k].ids|
      ensures effects[k].ids[i] != ev.streamId
    {
      assert Settled(effects, k, delivered, effects[k].ids[i]);
      NotSettled(effects, k, delivered, Lost(cfg, xs), ev);
    }
  }

  lemma OneMoreSession(cfg: Config, xs: seq<Session>, x: Session)
    ensures AllDelivered(cfg, xs + [x]) == AllDelivered(cfg, xs) + Delivered(Fresh(x.start), cfg, x.ticks)
    ensures AllEffects(cfg, xs + [x]) == AllEffects(cfg, xs) + EndOf(cfg, x).effects
    ensures Lost(cfg, xs + [x]) == Lost(cfg, xs) + EndOf(cfg, x).batch
  {
    assert (xs + [x])[..|xs|] == xs;
  }

  lemma OneSession(cfg: Config, x: Session)
    ensures AllDelivered(cfg, [x]) == Delivered(Fresh(x.start), cfg, x.ticks)
    ensures AllEffects(cfg, [x]) == EndOf(cfg, x).effects && Lost(cfg, [x]) == EndOf(cfg, x).batch
  {
    OneMoreSession(cfg, [], x);
    assert [] + [x] == [x];
  }

  /** One entry, a stop, and a sink that is down meanwhile: if nothing new
      comes in for the next process, the entry is in no row and in no ack. */
  lemma StopCanLoseABatch(cfg: Config, m: Message, now: int, next: Session)
    requires ParseEvent(m).Some?
    requires Delivered(Fresh(next.start), cfg, next.ticks) == []
    ensures var first := Session(now, [Tick(Entries([m]), now, false, true, true), Tick(Canceled, now, false, true, true)]);
            && EndOf(cfg, first).stopped && AllDelivered(cfg, [first, next]) == [m]
            && Rows(AllEffects(cfg, [first, next])) == [] && !Acks(AllEffects(cfg, [first, next]), m.id)
  {
    var first := Session(now, [Tick(Entries([m]), now, false, true, true), Tick(Canceled, now, false, true, true)]);
    OneEntrySession(cfg, m, now);
    OneSession(cfg, first);
    OneMoreSession(cfg, [first], next);
    assert [first] + [next] == [first, next];
    RunConserves(cfg, next.start, next.ticks);
    LostIsNeverAcked(cfg, [first, next], ParseEvent(m).value);
    assert [] + EndOf(cfg, next).effects == EndOf(cfg, next).effects;
  }

  lemma OneEntrySession(cfg: Config, m: Message, now: int)
    requires ParseEvent(m).Some?
    ensures var ticks := [Tick(Entries([m]), now, false, true, true), Tick(Canceled, now, false, true, true)];
            && RunTicks(Fresh(now), cfg, ticks) == State([ParseEvent(m).value], [m.id], now, [], true)
            && Delivered(Fresh(now), cfg, ticks) == [m]
  {
    var a, b := Tick(Entries([m]), now, false, true, true), Tick(Canceled, now, false, true, true);
    assert [a, b][..1] == [a] && [a][..0] == [];
    assert [m][..0] == [];
    assert CollectAll(Fresh(now), [m], true) == State([ParseEvent(m).value], [m.id], now, [], false);
    assert RunTicks(Fresh(now), cfg, [a]) == State([ParseEvent(m).value], [m.id], now, [], false);
    assert Delivered(Fresh(now), cfg, [a]) == [m];
  }
}
