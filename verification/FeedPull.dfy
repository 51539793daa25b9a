/** The feed from Postgres: keyset pages over (created_at, id). */
module FeedPull {
  import opened Common
  import opened FeedKeys

  /** A row of `videos`; `body` stands for the columns the feed only carries. */
  datatype Video = Video(key: Key, body: string)

  type Table = map<nat, Video>

  /** The zero time of the host language, in Unix microseconds. */
  const ZERO_TIME := -62_135_596_800_000_000

  const START := Key(ZERO_TIME, 0)

  type Limit = n: int | n > 0 witness 1

  /** Rows are stored under their id; no row has the nil id or the zero time. */
  predicate Proper(t: Table) {
    forall id :: id in t ==> t[id].key.id == id && id != 0 && t[id].key.at != ZERO_TIME
  }

  function Keys(t: Table): set<Key> {
    set id | id in t :: t[id].key
  }

  /** A key's row; a listing only names keys of the table. */
  function RowsOf(t: Table, q: seq<Key>): (vs: seq<Video>)
    requires forall k :: k in q ==> k.id in t
    ensures |vs| == |q| && forall i :: 0 <= i < |q| ==> vs[i] == t[q[i].id]
  {
    seq(|q|, i requires 0 <= i < |q| => t[q[i].id])
  }

  /** The cursor on the wire: "" or an opaque token. */
  datatype Wire = Empty | Token(cursor: Key)

  function Decode(w: Wire): Result<Key> {
    match w
    case Empty => Ok(START)
    case Token(c) => if c.id == 0 || c.at == ZERO_TIME then Err("invalid cursor") else Ok(c)
  }

  /** The empty cursor is the start of the feed; a token decodes to the position it
      carries, if that can be a row's. */
  lemma DecodeMeans(w: Wire)
    ensures w.Empty? ==> Decode(w) == Ok(START) && Bound(START) == None
    ensures w.Token? ==> (Decode(w).Ok? <==> w.cursor.id != 0 && w.cursor.at != ZERO_TIME)
    ensures w.Token? && Decode(w).Ok? ==> Decode(w).value == w.cursor && Bound(w.cursor) == Some(w.cursor)
  {}

  function Bound(cursor: Key): Option<Key> {
    if cursor == START then None else Some(cursor)
  }

  lemma ListingIsInTable(t: Table, c: Option<Key>)
    requires Proper(t)
    ensures |Desc(Below(Keys(t), c))| == |Below(Keys(t), c)|
    ensures forall k :: k in Desc(Below(Keys(t), c)) ==> k.id in t && t[k.id].key == k
  {
    var s := Below(Keys(t), c);
    DescFacts(s);
    forall k | k in Desc(s)
      ensures k.id in t && t[k.id].key == k
    {
      assert k in Elements(Desc(s));
    }
  }

  /** The query of FeedPage: at most limit rows after the cursor, newest first. */
  function PageRows(t: Table, cursor: Key, limit: int): seq<Video>
    requires Proper(t)
  {
    if limit <= 0 then []
    else
      ListingIsInTable(t, Bound(cursor));
      RowsOf(t, Take(Desc(Below(Keys(t), Bound(cursor))), limit))
  }

  datatype Page = Page(items: seq<Video>, next: Wire)

  /** Cut the probe row off and point the cursor at the last row kept. */
  function Cut(rows: seq<Video>, limit: nat): Page
    requires limit > 0
  {
    if |rows| > limit then Page(rows[..limit], Token(rows[limit - 1].key)) else Page(rows, Empty)
  }

  function Fetch(t: Table, cursor: Key, limit: int): Result<Page>
    requires Proper(t)
  {
    if limit <= 0 then Err("limit must be positive") else Ok(Cut(PageRows(t, cursor, limit + 1), limit))
  }

  /** The table behind the repository object. */
  class Repository {
    var rows: Table

    constructor (rows: Table)
      ensures this.rows == rows
    {
      this.rows := rows;
    }

    /** The row loop over an index scan, newest first. */
    method FeedPage(cursor: Key, limit: int) returns (out: seq<Video>)
      requires Proper(rows)
      ensures out == PageRows(rows, cursor, limit)
    {
      out := [];
      if limit <= 0 {
        return;
      }
      ghost var all := Desc(Below(Keys(rows), Bound(cursor)));
      ListingIsInTable(rows, Bound(cursor));
      var left := set id | id in rows && (cursor == START || Less(rows[id].key, cursor)) :: rows[id].key;
      assert left == Below(Keys(rows), Bound(cursor));
      while |out| < limit && left != {}
        invariant |out| <= limit && |out| <= |all| && Desc(left) == all[|out|..]
        invariant left <= Below(Keys(rows), Bound(cursor))
        invariant forall i :: 0 <= i < |out| ==> out[i] == rows[all[i].id]
        decreases left
      {
        var k := Newest(left);
        assert k == all[|out|..][0] == all[|out|];
        assert Desc(left)[1..] == Desc(left - {k});
        assert all[|out|..][1..] == all[|out| + 1..];
        out := out + [rows[k.id]];
        left := left - {k};
      }
      assert left == {} ==> |out| == |all| by {
        if left == {} { assert Desc(left) == []; }
      }
      assert out == RowsOf(rows, Take(all, limit));
    }

    /** The rows with the given ids, in no particular order; unknown ids are
        dropped. */
    method FindByIDs(ids: seq<nat>) returns (out: seq<Video>)
      requires Proper(rows)
      ensures forall i, j :: 0 <= i < j < |out| ==> out[i].key.id != out[j].key.id
      ensures forall v :: v in out <==> v.key.id in ids && v.key.id in rows && rows[v.key.id] == v
    {
      out := [];
      var left := set id | id in ids && id in rows;
      while left != {}
        invariant forall id :: id in left ==> id in ids && id in rows
        invariant forall i, j :: 0 <= i < j < |out| ==> out[i].key.id != out[j].key.id
        invariant forall v :: v in out <==>
                    v.key.id in ids && v.key.id in rows && v.key.id !in left && rows[v.key.id] == v
        decreases left
      {
        var id :| id in left;
        assert rows[id] !in out;
        out := out + [rows[id]];
        left := left - {id};
      }
    }
  }

  /** A limit that is not positive is an error, and the only one. */
  lemma LimitsArePositive(t: Table, cursor: Key, limit: int)
    requires Proper(t)
    ensures Fetch(t, cursor, limit).Ok? <==> limit > 0
    ensures limit <= 0 ==> PageRows(t, cursor, limit) == []
  {}

  // ----- one page -----

  /** A page is never longer than asked, holds the newest rows after its cursor,
      and its next cursor is non-empty exactly when a video comes after its last
      item. */
  lemma PageContract(t: Table, cursor: Key, limit: Limit)
    requires Proper(t)
    ensures forall k :: k in Desc(Below(Keys(t), Bound(cursor))) ==> k.id in t
    ensures var (page, after) := (Fetch(t, cursor, limit).value, Below(Keys(t), Bound(cursor)));
            && page.items == RowsOf(t, Take(Desc(after), limit))
            && (page.next.Token? <==> |after| > limit)
            && (page.next.Token? ==>
                  && |page.items| == limit && page.next.cursor == page.items[limit - 1].key
                  && Decode(page.next) == Ok(page.next.cursor) && page.next.cursor != START
                  && Below(Keys(t), Some(page.next.cursor)) != {})
            && (page.next.Empty? ==> forall k :: k in after ==> k.id in t && t[k.id] in page.items)
  {
    ListingIsInTable(t, Bound(cursor));
    var after := Below(Keys(t), Bound(cursor));
    var q, page := Desc(after), Fetch(t, cursor, limit).value;
    DescFacts(after);
    assert page.items == RowsOf(t, Take(q, limit));
    if |q| > limit {
      assert q[limit - 1] in q;
      RestOfListing(Keys(t), Bound(cursor), limit);
      assert q[limit..] != [];
    } else {
      forall k | k in after
        ensures k.id in t && t[k.id] in page.items
      {
        assert k in Elements(q);
        var i :| 0 <= i < |q| && q[i] == k;
        assert page.items[i] == t[k.id];
      }
    }
  }

  // ----- following the cursors -----

  predicate AllProper(tables: seq<Table>) {
    forall i :: 0 <= i < |tables| ==> Proper(tables[i])
  }

  /** The video is in the table at every fetch. */
  predicate Throughout(tables: seq<Table>, v: Video) {
    forall i :: 0 <= i < |tables| ==> v.key.id in tables[i] && tables[i][v.key.id] == v
  }

  /** A client that follows next cursors; fetch i sees tables[i].  The flag tells
      whether it reached the end of the feed. */
  function Browse(tables: seq<Table>, limits: seq<Limit>, cursor: Key): (seq<Video>, bool)
    requires |tables| == |limits| && AllProper(tables)
  {
    if tables == [] then ([], false)
    else
      var page := Fetch(tables[0], cursor, limits[0]).value;
      if page.next.Empty? then (page.items, true)
      else
        var (rest, done) := Browse(tables[1..], limits[1..], page.next.cursor);
        (page.items + rest, done)
  }

  predicate NewestFirst(vs: seq<Video>) {
    forall i, j :: 0 <= i < j < |vs| ==> Less(vs[j].key, vs[i].key)
  }

  predicate After(k: Key, c: Option<Key>) {
    c.None? || Less(k, c.value)
  }

  lemma PageIsNewestFirst(t: Table, cursor: Key, limit: Limit)
    requires Proper(t)
    ensures var items := Fetch(t, cursor, limit).value.items;
            NewestFirst(items) && forall i :: 0 <= i < |items| ==> After(items[i].key, Bound(cursor))
  {
    PageContract(t, cursor, limit);
    ListingIsInTable(t, Bound(cursor));
    var q := Desc(Below(Keys(t), Bound(cursor)));
    DescFacts(Below(Keys(t), Bound(cursor)));
    assert forall i :: 0 <= i < |q| ==> q[i] in q && q[i] in Elements(q);
  }

  /** Whatever is inserted or deleted between the fetches, the concatenated pages
      are strictly newest first, so no video appears twice. */
  lemma {:induction false} BrowseIsNewestFirst(tables: seq<Table>, limits: seq<Limit>, cursor: Key)
    requires |tables| == |limits| && AllProper(tables)
    ensures var items := Browse(tables, limits, cursor).0;
            NewestFirst(items) && forall i :: 0 <= i < |items| ==> After(items[i].key, Bound(cursor))
    decreases |tables|
  {
    if tables != [] {
      var t, limit := tables[0], limits[0];
      var page := Fetch(t, cursor, limit).value;
      PageContract(t, cursor, limit);
      PageIsNewestFirst(t, cursor, limit);
      if page.next.Token? {
        BrowseIsNewestFirst(tables[1..], limits[1..], page.next.cursor);
      }
    }
  }

  /** A video that is in the table at every fetch and lies after the start cursor
      is among the items once the end is reached. */
  lemma {:induction false} BrowseMissesNothing(tables: seq<Table>, limits: seq<Limit>, cursor: Key, v: Video)
    requires |tables| == |limits| && AllProper(tables)
    requires Throughout(tables, v)
    requires After(v.key, Bound(cursor)) && Browse(tables, limits, cursor).1
    ensures v in Browse(tables, limits, cursor).0
    decreases |tables|
  {
    var t, limit := tables[0], limits[0];
    var page := Fetch(t, cursor, limit).value;
    PageContract(t, cursor, limit);
    var after := Below(Keys(t), Bound(cursor));
    assert v.key in after;
    if page.next.Token? {
      var last := page.next.cursor;
      if Less(v.key, last) {
        BrowseMissesNothing(tables[1..], limits[1..], last, v);
      } else {
        OnThisPage(t, cursor, limit, v);
      }
    }
  }

  lemma OnThisPage(t: Table, cursor: Key, limit: Limit, v: Video)
    requires Proper(t) && v.key.id in t && t[v.key.id] == v && v.key in Below(Keys(t), Bound(cursor))
    requires var next := Fetch(t, cursor, limit).value.next; next.Token? && !Less(v.key, next.cursor)
    ensures v in Fetch(t, cursor, limit).value.items
  {
    PageContract(t, cursor, limit);
    ListingIsInTable(t, Bound(cursor));
    var q := Desc(Below(Keys(t), Bound(cursor)));
    DescFacts(Below(Keys(t), Bound(cursor)));
    assert v.key in Elements(q);
    var i :| 0 <= i < |q| && q[i] == v.key;
    assert q[limit - 1] in q;
    assert i < limit;
    assert Fetch(t, cursor, limit).value.items[i] == v;
  }

  lemma OnceInDescending(items: seq<Video>, v: Video)
    requires NewestFirst(items) && v in items
    ensures multiset(items)[v] == 1
  {
    var i :| 0 <= i < |items| && items[i] == v;
    var a, b := items[..i], items[i + 1..];
    assert items == a + [v] + b;
    assert v !in a && v !in b;
    assert multiset(items) == multiset(a) + multiset{v} + multiset(b);
  }

  /** Exactly once: a video present throughout appears once and only once. */
  lemma ExactlyOnce(tables: seq<Table>, limits: seq<Limit>, v: Video)
    requires |tables| == |limits| && AllProper(tables) && Throughout(tables, v)
    requires Browse(tables, limits, START).1
    ensures multiset(Browse(tables, limits, START).0)[v] == 1
  {
    BrowseIsNewestFirst(tables, limits, START);
    BrowseMissesNothing(tables, limits, START, v);
    OnceInDescending(Browse(tables, limits, START).0, v);
  }

  lemma RowsOfCut(t: Table, q: seq<Key>, n: nat)
    requires (forall k :: k in q ==> k.id in t) && n <= |q|
    ensures RowsOf(t, q) == RowsOf(t, q[..n]) + RowsOf(t, q[n..])
  {}

  /** On a table that does not change the pages are exactly the whole feed, and
      the end is reached within as many fetches as there are videos, plus one. */
  lemma {:induction false} FixedTable(tables: seq<Table>, t: Table, limits: seq<Limit>, cursor: Key)
    requires Proper(t) && |tables| == |limits| && forall i :: 0 <= i < |tables| ==> tables[i] == t
    requires |limits| > |Below(Keys(t), Bound(cursor))|
    ensures forall k :: k in Desc(Below(Keys(t), Bound(cursor))) ==> k.id in t
    ensures Browse(tables, limits, cursor) == (RowsOf(t, Desc(Below(Keys(t), Bound(cursor)))), true)
    decreases |limits|
  {
    var after := Below(Keys(t), Bound(cursor));
    var q, limit := Desc(after), limits[0];
    ListingIsInTable(t, Bound(cursor));
    PageContract(t, cursor, limit);
    var page := Fetch(t, cursor, limit).value;
    if |q| > limit {
      assert q[limit - 1] in q;
      assert page.next.cursor == q[limit - 1];
      RestOfListing(Keys(t), Bound(cursor), limit);
      ListingIsInTable(t, Some(q[limit - 1]));
      FixedTable(tables[1..], t, limits[1..], q[limit - 1]);
      RowsOfCut(t, q, limit);
    }
  }
}
