/** The two feed modes against each other: when does a push page equal a pull
    page? */
module FeedModes {
  import opened Common
  import opened FeedKeys
  import opened FeedPull
  import opened FeedCache
  import opened FeedPush

  /** The table cut down to the cached videos. */
  function Restrict(t: Table, z: set<Key>): Table {
    map id | id in t && t[id].key in z :: t[id]
  }

  /** A cached entry with the cursor's time that the cursor has not passed. */
  predicate TiedBelow(z: set<Key>, cursor: Key) {
    cursor != START && exists k :: k in z && k.at == cursor.at && k.id < cursor.id
  }

  lemma RestrictKeys(t: Table, z: set<Key>)
    requires Proper(t) && z <= Keys(t)
    ensures Proper(Restrict(t, z)) && Keys(Restrict(t, z)) == z
  {
    forall k | k in z
      ensures k in Keys(Restrict(t, z))
    {
      var id :| id in t && t[id].key == k;
      assert id in Restrict(t, z);
    }
  }

  /** Hydrating ids that all exist is looking up the rows. */
  lemma {:induction false} HydratedAll(t: Table, q: seq<Key>)
    requires forall k :: k in q ==> k.id in t
    ensures Hydrated(t, q) == RowsOf(t, q)
  {
    if q != [] {
      var n := |q| - 1;
      assert q[n] in q && forall k :: k in q[..n] ==> k in q;
      HydratedAll(t, q[..n]);
      assert Hydrated(t, q) == RowsOf(t, q[..n]) + [t[q[n].id]];
    }
  }

  lemma InTable(t: Table, z: set<Key>, q: seq<Key>)
    requires Proper(t) && z <= Keys(t) && Elements(q) <= z
    ensures forall k :: k in q ==> k.id in t && t[k.id].key == k
  {
    forall k | k in q
      ensures k.id in t && t[k.id].key == k
    {
      assert k in Elements(q);
      var id :| id in t && t[id].key == k;
    }
  }

  lemma TakeIsInside(s: set<Key>, n: nat)
    ensures Elements(Take(Desc(s), n)) <= s
  {
    DescFacts(s);
    forall k | k in Take(Desc(s), n)
      ensures k in s
    {
      assert k in Elements(Desc(s));
    }
  }

  /** A push page is the first cached rows with a score below the cursor's. */
  lemma PushPageIs(z: set<Key>, t: Table, cursor: Key, limit: Limit)
    requires Proper(t) && z <= Keys(t)
    ensures var q := Take(Desc(EntriesBelow(z, cursor)), limit + 1);
            && (forall k :: k in q ==> k.id in t && t[k.id].key == k)
            && PushFetch(z, t, cursor, limit) == Ok(Cut(RowsOf(t, q), limit))
  {
    var q := Take(Desc(EntriesBelow(z, cursor)), limit + 1);
    TakeIsInside(EntriesBelow(z, cursor), limit + 1);
    InTable(t, z, q);
    HydratedAll(t, q);
  }

  /** A pull page over the cached videos is the first of them after the cursor. */
  lemma PullPageIs(z: set<Key>, t: Table, cursor: Key, limit: Limit)
    requires Proper(t) && z <= Keys(t)
    ensures var q := Take(Desc(Below(z, Bound(cursor))), limit + 1);
            && Proper(Restrict(t, z))
            && (forall k :: k in q ==> k.id in t && t[k.id].key == k)
            && Fetch(Restrict(t, z), cursor, limit) == Ok(Cut(RowsOf(t, q), limit))
  {
    RestrictKeys(t, z);
    var q := Take(Desc(Below(z, Bound(cursor))), limit + 1);
    TakeIsInside(Below(z, Bound(cursor)), limit + 1);
    InTable(t, z, q);
    ListingIsInTable(Restrict(t, z), Bound(cursor));
    assert RowsOf(Restrict(t, z), q) == RowsOf(t, q);
  }

  /** The first row of a pull page when an entry is tied below the cursor. */
  lemma TieComesFirst(z: set<Key>, cursor: Key)
    requires TiedBelow(z, cursor)
    ensures var q := Desc(Below(z, Bound(cursor))); |q| > 0 && q[0].at == cursor.at
  {
    var k :| k in z && k.at == cursor.at && k.id < cursor.id;
    var s := Below(z, Bound(cursor));
    assert k in s;
    DescFacts(s);
    assert k in Elements(Desc(s));
    assert Desc(s)[0] in Elements(Desc(s));
    var i :| 0 <= i < |Desc(s)| && Desc(s)[i] == k;
    assert i > 0 ==> Less(Desc(s)[i], Desc(s)[0]);
  }

  /** Push refines pull: when every cached id exists, a push page, its items and
      its next cursor, is the pull page over the cached videos if and only if no
      cached entry is tied with the cursor below it.  The order in which rows
      come back from Postgres does not matter. */
  lemma PushEqualsPullIff(z: set<Key>, t: Table, cursor: Key, limit: Limit)
    requires Proper(t) && z <= Keys(t)
    ensures Proper(Restrict(t, z))
    ensures PushFetch(z, t, cursor, limit) == Fetch(Restrict(t, z), cursor, limit) <==> !TiedBelow(z, cursor)
  {
    PushPageIs(z, t, cursor, limit);
    PullPageIs(z, t, cursor, limit);
    if TiedBelow(z, cursor) {
      TieComesFirst(z, cursor);
      var push := PushFetch(z, t, cursor, limit).value.items;
      var pull := Fetch(Restrict(t, z), cursor, limit).value.items;
      assert |pull| > 0 && pull[0].key.at == cursor.at;
      if |push| > 0 {
        TakeIsInside(EntriesBelow(z, cursor), limit + 1);
        var q := Take(Desc(EntriesBelow(z, cursor)), limit + 1);
        assert q[0] in Elements(q);
        assert push[0].key == q[0];
        assert push[0].key.at < cursor.at;
      }
    } else {
      assert EntriesBelow(z, cursor) == Below(z, Bound(cursor));
    }
  }

  predicate DistinctTimes(z: set<Key>) {
    forall a, b :: a in z && b in z && a.at == b.at ==> a == b
  }

  /** With distinct timestamps that holds at the start and at every cursor a push
      page hands out, so push paging is pull paging over the cached videos. */
  lemma PushCursorsAreNeverTied(z: set<Key>, t: Table, cursor: Key, limit: Limit)
    requires Proper(t) && z <= Keys(t) && DistinctTimes(z)
    ensures var next := PushFetch(z, t, cursor, limit).value.next;
            next.Token? ==> next.cursor in z && !TiedBelow(z, next.cursor)
    ensures !TiedBelow(z, START)
  {
    PushPageIs(z, t, cursor, limit);
    TakeIsInside(EntriesBelow(z, cursor), limit + 1);
    var q := Take(Desc(EntriesBelow(z, cursor)), limit + 1);
    if |q| > limit {
      assert q[limit - 1] in Elements(q);
    }
  }

  // ----- following the cursors -----

  /** A client of the push feed; fetch i sees caches[i] and tables[i]. */
  function BrowsePush(caches: seq<set<Key>>, tables: seq<Table>, limits: seq<Limit>, cursor: Key): (seq<Video>, bool)
    requires |caches| == |tables| == |limits|
    decreases |limits|
  {
    if limits == [] then ([], false)
    else
      var page := PushFetch(caches[0], tables[0], cursor, limits[0]).value;
      if page.next.Empty? then (page.items, true)
      else
        var (rest, done) := BrowsePush(caches[1..], tables[1..], limits[1..], page.next.cursor);
        (page.items + rest, done)
  }

  /** A cached entry carries its row's key, if it has a row. */
  predicate Fits(z: set<Key>, t: Table) {
    Proper(t) && forall k :: k in z && k.id in t ==> t[k.id].key == k
  }

  /** The listed keys that have a row. */
  function Present(t: Table, q: seq<Key>): seq<Key> {
    if q == [] then []
    else Present(t, q[..|q| - 1]) + if q[|q| - 1].id in t then [q[|q| - 1]] else []
  }

  lemma {:induction false} PresentIs(t: Table, q: seq<Key>)
    ensures forall k :: k in Present(t, q) <==> k in q && k.id in t
    ensures |Present(t, q)| <= |q| && Hydrated(t, q) == RowsOf(t, Present(t, q))
  {
    if q != [] {
      PresentIs(t, q[..|q| - 1]);
      assert forall k :: k in q <==> k in q[..|q| - 1] || k == q[|q| - 1];
    }
  }

  lemma {:induction false} PresentIsDescending(t: Table, q: seq<Key>)
    requires Descending(q)
    ensures Descending(Present(t, q))
  {
    if q != [] {
      var n := |q| - 1;
      PresentIsDescending(t, q[..n]);
      PresentIs(t, q[..n]);
      var init := Present(t, q[..n]);
      forall i | 0 <= i < |init|
        ensures Less(q[n], init[i])
      {
        assert init[i] in q[..n];
        var j :| 0 <= j < n && q[..n][j] == init[i];
      }
    }
  }

  lemma TakeIsDescending(s: set<Key>, n: nat)
    ensures Descending(Take(Desc(s), n)) && |Take(Desc(s), n)| <= n
  {
    DescFacts(s);
  }

  /** The rows still there of a listing, as a table of their own. */
  lemma PresentTable(t: Table, q: seq<Key>)
    requires Fits(Elements(q), t) && Descending(q)
    ensures var mine := Restrict(t, Elements(q));
            Proper(mine) && Desc(Keys(mine)) == Present(t, q) && Keys(mine) == Elements(Present(t, q))
  {
    PresentIs(t, q);
    PresentIsDescending(t, q);
    var mine := Restrict(t, Elements(q));
    forall k
      ensures k in Keys(mine) <==> k in Present(t, q)
    {
      if k in Present(t, q) {
        assert k in Elements(q) && k.id in mine && mine[k.id].key == k;
      }
      if id :| id in mine && mine[id].key == k {
        assert t[id].key in Elements(q);
      }
    }
    assert Keys(mine) == Elements(Present(t, q));
    DescIsUnique(Present(t, q));
  }

  /** Every push page, also from a cache with videos that are gone, is a pull page:
      over the rows that are left of the first limit+1 entries with a score below
      the cursor's. */
  lemma PushPageIsPullPage(z: set<Key>, t: Table, cursor: Key, limit: Limit)
    requires Fits(z, t)
    ensures var mine := Restrict(t, Elements(RevRange(z, cursor, limit + 1)));
            Proper(mine) && PushFetch(z, t, cursor, limit) == Fetch(mine, cursor, limit)
  {
    var q := RevRange(z, cursor, limit + 1);
    var mine := Restrict(t, Elements(q));
    TakeIsInside(EntriesBelow(z, cursor), limit + 1);
    TakeIsDescending(EntriesBelow(z, cursor), limit + 1);
    PresentTable(t, q);
    PresentIs(t, q);
    assert Below(Keys(mine), Bound(cursor)) == Keys(mine) by {
      forall k | k in Keys(mine)
        ensures k in Below(Keys(mine), Bound(cursor))
      {
        assert k in Present(t, q) && k in Elements(q) && k in EntriesBelow(z, cursor);
      }
    }
    ListingIsInTable(mine, Bound(cursor));
    assert RowsOf(mine, Present(t, q)) == RowsOf(t, Present(t, q));
  }

  /** Every cached entry is the key of a row, at every fetch. */
  predicate Backed(caches: seq<set<Key>>, tables: seq<Table>) {
    |caches| == |tables| && AllProper(tables) && forall i :: 0 <= i < |tables| ==> caches[i] <= Keys(tables[i])
  }

  /** The entries a push page can show after a cursor: none tied with it. */
  function Untied(z: set<Key>, cursor: Key): set<Key> {
    set k | k in z && (cursor == START || k.at != cursor.at)
  }

  /** With all rows there, it is the pull page over all entries that are not tied
      with the cursor. */
  lemma PushPageIsUntiedPullPage(z: set<Key>, t: Table, cursor: Key, limit: Limit)
    requires Proper(t) && z <= Keys(t)
    ensures var mine := Restrict(t, Untied(z, cursor));
            Proper(mine) && Keys(mine) == Untied(z, cursor) && PushFetch(z, t, cursor, limit) == Fetch(mine, cursor, limit)
  {
    RestrictKeys(t, Untied(z, cursor));
    PushEqualsPullIff(Untied(z, cursor), t, cursor, limit);
    assert EntriesBelow(Untied(z, cursor), cursor) == EntriesBelow(z, cursor);
  }

  predicate AllAfter(vs: seq<Video>, c: Option<Key>) {
    forall i :: 0 <= i < |vs| ==> After(vs[i].key, c)
  }

  lemma PushPageIsNewestFirst(z: set<Key>, t: Table, cursor: Key, limit: Limit)
    requires Fits(z, t)
    ensures var page := PushFetch(z, t, cursor, limit).value;
            && NewestFirst(page.items) && AllAfter(page.items, Bound(cursor))
            && (page.next.Token? ==>
                  page.items != [] && page.next.cursor == page.items[|page.items| - 1].key && page.next.cursor != START)
  {
    PushPageIsPullPage(z, t, cursor, limit);
    var mine := Restrict(t, Elements(RevRange(z, cursor, limit + 1)));
    PageIsNewestFirst(mine, cursor, limit);
    PageContract(mine, cursor, limit);
  }

  lemma PageThenRest(page: seq<Video>, rest: seq<Video>, c: Option<Key>)
    requires page != [] && NewestFirst(page) && AllAfter(page, c)
    requires NewestFirst(rest) && AllAfter(rest, Some(page[|page| - 1].key))
    ensures NewestFirst(page + rest) && AllAfter(page + rest, c)
  {
    assert forall i :: 0 <= i < |page| - 1 ==> Less(page[|page| - 1].key, page[i].key);
  }

  /** Whatever is published, trimmed or deleted between the fetches, the pages of
      the push feed are strictly newest first, so no video appears twice. */
  lemma {:induction false} PushIsNewestFirst(caches: seq<set<Key>>, tables: seq<Table>, limits: seq<Limit>, cursor: Key)
    requires |caches| == |tables| == |limits| && forall i :: 0 <= i < |tables| ==> Fits(caches[i], tables[i])
    ensures var items := BrowsePush(caches, tables, limits, cursor).0;
            NewestFirst(items) && AllAfter(items, Bound(cursor))
    decreases |limits|
  {
    if limits != [] {
      PushPageIsNewestFirst(caches[0], tables[0], cursor, limits[0]);
      var page := PushFetch(caches[0], tables[0], cursor, limits[0]).value;
      if page.next.Token? {
        PushIsNewestFirst(caches[1..], tables[1..], limits[1..], page.next.cursor);
        PageThenRest(page.items, BrowsePush(caches[1..], tables[1..], limits[1..], page.next.cursor).0, Bound(cursor));
      }
    }
  }

  /** The video is cached and in the table at every fetch. */
  predicate CachedAlong(caches: seq<set<Key>>, tables: seq<Table>, v: Video)
    requires |caches| == |tables|
  {
    Throughout(tables, v) && forall i :: 0 <= i < |caches| ==> v.key in caches[i]
  }

  /** No other entry ever has the video's time. */
  predicate OwnTime(caches: seq<set<Key>>, v: Video) {
    forall i, k :: 0 <= i < |caches| && k in caches[i] && k.at == v.key.at ==> k == v.key
  }

  /** On its way down the feed, a page that does not show the video leaves it
      ahead of the next cursor. */
  lemma ShownOrAhead(z: set<Key>, t: Table, cursor: Key, limit: Limit, v: Video)
    requires Proper(t) && z <= Keys(t) && v.key in z && v.key.id in t && t[v.key.id] == v
    requires forall k :: k in z && k.at == v.key.at ==> k == v.key
    requires cursor == START || v.key.at < cursor.at
    ensures var page := PushFetch(z, t, cursor, limit).value;
            v in page.items || (page.next.Token? && v.key.at < page.next.cursor.at)
  {
    var mine := Restrict(t, Untied(z, cursor));
    PushPageIsUntiedPullPage(z, t, cursor, limit);
    PageContract(mine, cursor, limit);
    var page := PushFetch(z, t, cursor, limit).value;
    var after := Below(Keys(mine), Bound(cursor));
    assert v.key in after;
    if page.next.Token? {
      if !Less(v.key, page.next.cursor) {
        OnThisPage(mine, cursor, limit, v);
      } else {
        PushNextIsCached(z, t, cursor, limit);
      }
    }
  }

  lemma PushNextIsCached(z: set<Key>, t: Table, cursor: Key, limit: Limit)
    requires Proper(t) && z <= Keys(t)
    ensures var next := PushFetch(z, t, cursor, limit).value.next; next.Token? ==> next.cursor in z && next.cursor != START
  {
    PushPageIs(z, t, cursor, limit);
    TakeIsInside(EntriesBelow(z, cursor), limit + 1);
    var q := Take(Desc(EntriesBelow(z, cursor)), limit + 1);
    if |q| > limit {
      assert q[limit - 1] in Elements(q);
    }
  }

  lemma {:induction false} PushMissesNothing(caches: seq<set<Key>>, tables: seq<Table>, limits: seq<Limit>, cursor: Key, v: Video)
    requires |tables| == |limits| && Backed(caches, tables) && CachedAlong(caches, tables, v) && OwnTime(caches, v)
    requires cursor == START || v.key.at < cursor.at
    requires BrowsePush(caches, tables, limits, cursor).1
    ensures v in BrowsePush(caches, tables, limits, cursor).0
    decreases |limits|
  {
    ShownOrAhead(caches[0], tables[0], cursor, limits[0], v);
    var page := PushFetch(caches[0], tables[0], cursor, limits[0]).value;
    if v !in page.items {
      PushMissesNothing(caches[1..], tables[1..], limits[1..], page.next.cursor, v);
    }
  }

  lemma BackedFits(caches: seq<set<Key>>, tables: seq<Table>)
    requires Backed(caches, tables)
    ensures forall i :: 0 <= i < |tables| ==> Fits(caches[i], tables[i])
  {
    forall i, k | 0 <= i < |tables| && k in caches[i]
      ensures k.id in tables[i] && tables[i][k.id].key == k
    {
      assert k in Keys(tables[i]);
    }
  }

  /** Exactly once in push mode too: while videos are published, trimmed and
      deleted between the fetches, a video that stays cached and shares its
      microsecond with no other appears once and only once. */
  lemma PushExactlyOnce(caches: seq<set<Key>>, tables: seq<Table>, limits: seq<Limit>, v: Video)
    requires |tables| == |limits| && Backed(caches, tables) && CachedAlong(caches, tables, v) && OwnTime(caches, v)
    requires BrowsePush(caches, tables, limits, START).1
    ensures multiset(BrowsePush(caches, tables, limits, START).0)[v] == 1
  {
    BackedFits(caches, tables);
    PushIsNewestFirst(caches, tables, limits, START);
    PushMissesNothing(caches, tables, limits, START, v);
    OnceInDescending(BrowsePush(caches, tables, limits, START).0, v);
  }

  function Restricted(caches: seq<set<Key>>, tables: seq<Table>): (ts: seq<Table>)
    requires |caches| == |tables|
    ensures |ts| == |tables| && forall i :: 0 <= i < |ts| ==> ts[i] == Restrict(tables[i], caches[i])
  {
    seq(|tables|, i requires 0 <= i < |tables| => Restrict(tables[i], caches[i]))
  }

  /** If no two videos ever cached share a microsecond, push browsing is pull
      browsing over what is cached at each fetch. */
  lemma {:induction false} BrowsePushIsBrowse(caches: seq<set<Key>>, tables: seq<Table>, limits: seq<Limit>, cursor: Key, all: set<Key>)
    requires |tables| == |limits| && Backed(caches, tables)
    requires DistinctTimes(all) && (forall i :: 0 <= i < |caches| ==> caches[i] <= all)
    requires cursor == START || cursor in all
    ensures AllProper(Restricted(caches, tables))
    ensures BrowsePush(caches, tables, limits, cursor) == Browse(Restricted(caches, tables), limits, cursor)
    decreases |limits|
  {
    forall i | 0 <= i < |tables|
      ensures Proper(Restrict(tables[i], caches[i]))
    {
      RestrictKeys(tables[i], caches[i]);
    }
    if limits != [] {
      assert !TiedBelow(caches[0], cursor);
      PushEqualsPullIff(caches[0], tables[0], cursor, limits[0]);
      PushNextIsCached(caches[0], tables[0], cursor, limits[0]);
      var next := PushFetch(caches[0], tables[0], cursor, limits[0]).value.next;
      assert Restricted(caches, tables)[1..] == Restricted(caches[1..], tables[1..]);
      if next.Token? {
        BrowsePushIsBrowse(caches[1..], tables[1..], limits[1..], next.cursor, all);
      }
    }
  }

  /** Followed from the start to the end on a cache that does not change, the
      push feed is exactly the cached videos, newest first, each once. */
  // Dafny would try induction on the sequence by itself.
  lemma {:induction false} PushFeedIsTheCache(z: set<Key>, t: Table, limits: seq<Limit>)
    requires Proper(t) && z <= Keys(t) && DistinctTimes(z) && |limits| > |z|
    ensures forall k :: k in Desc(z) ==> k.id in t
    ensures BrowsePush(seq(|limits|, _ => z), seq(|limits|, _ => t), limits, START) == (RowsOf(t, Desc(z)), true)
  {
    RestrictKeys(t, z);
    var caches, tables := seq(|limits|, _ => z), seq(|limits|, _ => t);
    BrowsePushIsBrowse(caches, tables, limits, START, z);
    assert Below(z, None) == z;
    FixedTable(Restricted(caches, tables), Restrict(t, z), limits, START);
    DescFacts(z);
    InTable(t, z, Desc(z));
    assert RowsOf(Restrict(t, z), Desc(z)) == RowsOf(t, Desc(z));
  }

  // ----- against the full feed -----

  predicate ClosedUpwards(z: set<Key>, all: set<Key>) {
    z <= all && forall k, x :: k in z && x in all && Less(k, x) ==> x in z
  }

  lemma NewestIsShared(z: set<Key>, all: set<Key>)
    requires ClosedUpwards(z, all) && z != {}
    ensures Newest(z) == Newest(all) && ClosedUpwards(z - {Newest(z)}, all - {Newest(z)})
  {
    assert Newest(z) in all;
    assert Newest(all) in z by {
      assert Newest(z) == Newest(all) || Less(Newest(z), Newest(all));
    }
  }

  lemma DescLength(s: set<Key>)
    ensures |Desc(s)| == |s|
  {
    DescFacts(s);
  }

  lemma PrefixWithHead(k: Key, q: seq<Key>, r: seq<Key>)
    requires |q| <= |r| && q == r[..|q|]
    ensures [k] + q == ([k] + r)[..|q| + 1]
  {}

  /** A set that is closed upwards lists as a prefix. */
  lemma {:induction false} ListsAsPrefix(z: set<Key>, all: set<Key>)
    requires ClosedUpwards(z, all)
    ensures |Desc(z)| == |z| && |Desc(all)| == |all| && |z| <= |all|
    ensures Desc(z) == Desc(all)[..|z|]
    decreases |all|
  {
    DescLength(z);
    DescLength(all);
    if z != {} {
      var k := Newest(z);
      NewestIsShared(z, all);
      ListsAsPrefix(z - {k}, all - {k});
      PrefixWithHead(k, Desc(z - {k}), Desc(all - {k}));
    }
  }

  /** After any cursor, the cached videos list as a prefix of all videos. */
  lemma CacheListsAsPrefix(all: set<Key>, cap: nat, c: Option<Key>)
    ensures var (mine, rest) := (Below(Top(all, cap), c), Below(all, c));
            && |Desc(mine)| == |mine| && |Desc(rest)| == |rest| && |mine| <= |rest|
            && (|mine| == |rest| ==> mine == rest)
            && Desc(mine) == Desc(rest)[..|mine|]
  {
    var mine, rest := Below(Top(all, cap), c), Below(all, c);
    forall k, x | k in mine && x in rest && Less(k, x)
      ensures x in mine
    {
      TopIsClosedUpwards(all, cap, k, x);
    }
    ListsAsPrefix(mine, rest);
    if |mine| == |rest| {
      SameSizeSubset(mine, rest);
    }
  }

  /** The cached entries after the cursor list as a prefix of all rows after it. */
  predicate PrefixAfter(z: set<Key>, t: Table, cursor: Key) {
    var (mine, all) := (Below(z, Bound(cursor)), Below(Keys(t), Bound(cursor)));
    && Proper(t) && z <= Keys(t) && EntriesBelow(z, cursor) == mine
    && |Desc(mine)| == |mine| && |Desc(all)| == |all| && |mine| <= |all| && Desc(mine) == Desc(all)[..|mine|]
  }

  lemma FullPagesAgree(z: set<Key>, t: Table, cursor: Key, limit: Limit)
    requires PrefixAfter(z, t, cursor)
    requires |Below(z, Bound(cursor))| > limit || Below(z, Bound(cursor)) == Below(Keys(t), Bound(cursor))
    ensures PushFetch(z, t, cursor, limit) == Fetch(t, cursor, limit)
  {
    PushPageIs(z, t, cursor, limit);
    ListingIsInTable(t, Bound(cursor));
    assert Take(Desc(Below(z, Bound(cursor))), limit + 1) == Take(Desc(Below(Keys(t), Bound(cursor))), limit + 1);
  }

  lemma ShortPageDiffers(z: set<Key>, t: Table, cursor: Key, limit: Limit)
    requires PrefixAfter(z, t, cursor)
    requires |Below(z, Bound(cursor))| <= limit && |Below(z, Bound(cursor))| < |Below(Keys(t), Bound(cursor))|
    ensures PushFetch(z, t, cursor, limit) != Fetch(t, cursor, limit)
  {
    PushPageIs(z, t, cursor, limit);
    var mine := Below(z, Bound(cursor));
    assert PushFetch(z, t, cursor, limit).value == Page(RowsOf(t, Desc(mine)), Empty);
    PullShowsMore(t, cursor, limit, |mine|);
  }

  /** On the cap newest videos, with no tie at the cursor, a push page is the pull
      page of the whole feed if and only if the cache still holds more than a
      page after the cursor, or all there is: past the cap the feed ends early. */
  lemma PushIsTheFullFeedIff(t: Table, cap: nat, cursor: Key, limit: Limit)
    requires Proper(t) && !TiedBelow(Top(Keys(t), cap), cursor)
    ensures var z := Top(Keys(t), cap);
            PushFetch(z, t, cursor, limit) == Fetch(t, cursor, limit) <==>
            (|Below(z, Bound(cursor))| > limit || Below(z, Bound(cursor)) == Below(Keys(t), Bound(cursor)))
  {
    var z := Top(Keys(t), cap);
    CacheListsAsPrefix(Keys(t), cap, Bound(cursor));
    assert EntriesBelow(z, cursor) == Below(z, Bound(cursor));
    if |Below(z, Bound(cursor))| > limit || Below(z, Bound(cursor)) == Below(Keys(t), Bound(cursor)) {
      FullPagesAgree(z, t, cursor, limit);
    } else {
      ShortPageDiffers(z, t, cursor, limit);
    }
  }

  /** A pull page over more than n videos goes on or shows more than n. */
  lemma PullShowsMore(t: Table, cursor: Key, limit: Limit, n: nat)
    requires Proper(t) && |Below(Keys(t), Bound(cursor))| > n
    ensures var page := Fetch(t, cursor, limit).value; page.next.Token? || |page.items| > n
  {
    ListingIsInTable(t, Bound(cursor));
  }

  lemma SameSizeSubset(a: set<Key>, b: set<Key>)
    requires a <= b && |a| == |b|
    ensures a == b
  {
    if a != b {
      var x :| x in b && x !in a;
      SubsetIsNotLarger(a, b - {x});
    }
  }

  /** The cache reaches that state.  Start from any cached videos, let Warmup load
      what it read from an earlier table at any point among Publish calls of all
      later videos, in any interleaving: the cap newest videos of the table are
      in the cache, and once every call was followed by its trim, nothing else. */
  lemma WarmCacheIsTheTop(z: set<Key>, was: Table, now: Table, steps: seq<Step>, cap: nat)
    requires Proper(was) && Proper(now) && DistinctMembers(Keys(now))
    requires z <= Keys(now) && Load(Top(Keys(was), cap)) in steps
    requires Keys(now) == Keys(was) + Published(steps)
    ensures Top(FeedCache.Run(z, steps, cap), cap) == Top(Keys(now), cap)
    ensures AllFinished(steps) ==> FeedCache.Run(z, steps, cap) == Top(Keys(now), cap)
  {
    LoadedIsPublished(steps, Top(Keys(was), cap));
    assert z + Published(steps) <= Keys(now);
    TopIsNeverLost(z, steps, cap);
    TopAbsorbsTop(Keys(was), z + Published(steps), cap);
    assert Top(Keys(was), cap) + (z + Published(steps)) == z + Published(steps);
    assert Keys(was) + (z + Published(steps)) == Keys(now);
    if AllFinished(steps) {
      PublishesConfluent(z, steps, cap);
    }
  }

  lemma {:induction false} LoadedIsPublished(steps: seq<Step>, rows: set<Key>)
    requires Load(rows) in steps
    ensures rows <= Published(steps)
  {
    var n := |steps| - 1;
    if Load(rows) in steps[..n] {
      LoadedIsPublished(steps[..n], rows);
    } else {
      assert steps[n] == Load(rows);
    }
  }

  // ----- rows that are gone -----

  lemma {:induction false} HydratedSize(t: Table, q: seq<Key>)
    ensures |Hydrated(t, q)| <= |q|
    ensures |Hydrated(t, q)| == |q| <==> forall k :: k in q ==> k.id in t
  {
    if q != [] {
      var n := |q| - 1;
      HydratedSize(t, q[..n]);
      assert forall k :: k in q <==> k in q[..n] || k == q[n];
    }
  }

  /** The push feed goes on after a page if and only if the cache holds more than
      a page below the cursor and each of the first limit+1 ids still has its
      row; one deleted video among them ends the feed. */
  lemma PushGoesOnIff(z: set<Key>, t: Table, cursor: Key, limit: Limit)
    ensures PushFetch(z, t, cursor, limit).value.next.Token? <==>
              |EntriesBelow(z, cursor)| > limit &&
              forall k :: k in Take(Desc(EntriesBelow(z, cursor)), limit + 1) ==> k.id in t
  {
    DescFacts(EntriesBelow(z, cursor));
    HydratedSize(t, Take(Desc(EntriesBelow(z, cursor)), limit + 1));
  }

  // ----- three inputs on which the push feed ends early or skips -----

  lemma DescOfTwo(a: Key, b: Key)
    requires Less(b, a)
    ensures Desc({a, b}) == [a, b]
  {
    assert Elements([a, b]) == {a, b};
    DescIsUnique([a, b]);
  }

  lemma DescOfOne(a: Key)
    ensures Desc({a}) == [a]
  {
    assert Elements([a]) == {a};
    DescIsUnique([a]);
  }

  function TableOfTwo(v: Video, w: Video): Table {
    map[v.key.id := v, w.key.id := w]
  }

  predicate Tied(v: Video, w: Video) {
    v.key.at == w.key.at && v.key.at != ZERO_TIME && 0 < w.key.id < v.key.id
  }

  lemma TiedListings(v: Video, w: Video)
    requires Tied(v, w)
    ensures var (z, t) := ({v.key, w.key}, TableOfTwo(v, w));
            && Proper(t) && Keys(t) == z
            && Desc(z) == [v.key, w.key] && Desc(Below(z, Some(v.key))) == [w.key] && EntriesBelow(z, v.key) == {}
  {
    var z, t := {v.key, w.key}, TableOfTwo(v, w);
    assert v.key in Keys(t) && w.key in Keys(t) by { assert v.key.id in t && w.key.id in t; }
    DescOfTwo(v.key, w.key);
    DescOfOne(w.key);
    assert Below(z, Some(v.key)) == {w.key};
  }

  lemma TiedPushPages(v: Video, w: Video)
    requires Tied(v, w)
    ensures var (z, t) := ({v.key, w.key}, TableOfTwo(v, w));
            && PushFetch(z, t, START, 1).value == Page([v], Token(v.key))
            && PushFetch(z, t, v.key, 1).value == Page([], Empty)
  {
    var z, t := {v.key, w.key}, TableOfTwo(v, w);
    TiedListings(v, w);
    assert EntriesBelow(z, START) == z;
    PushPageIs(z, t, START, 1);
    PushPageIs(z, t, v.key, 1);
  }

  lemma TiedPullPages(v: Video, w: Video)
    requires Tied(v, w)
    ensures var t := TableOfTwo(v, w);
            && Proper(t)
            && Fetch(t, START, 1).value == Page([v], Token(v.key))
            && Fetch(t, v.key, 1).value == Page([w], Empty)
  {
    var z, t := {v.key, w.key}, TableOfTwo(v, w);
    TiedListings(v, w);
    assert Below(z, None) == z;
    ListingIsInTable(t, None);
    ListingIsInTable(t, Some(v.key));
  }

  lemma PushTwice(z: set<Key>, t: Table, c: Key, a: seq<Video>, b: seq<Video>)
    requires PushFetch(z, t, START, 1).value == Page(a, Token(c)) && PushFetch(z, t, c, 1).value == Page(b, Empty)
    ensures BrowsePush([z, z], [t, t], [1, 1], START) == (a + b, true)
  {
    assert [z, z][1..] == [z] && [t, t][1..] == [t] && [1, 1][1..] == [1];
  }

  lemma PullTwice(t: Table, c: Key, a: seq<Video>, b: seq<Video>)
    requires Proper(t)
    requires Fetch(t, START, 1).value == Page(a, Token(c)) && Fetch(t, c, 1).value == Page(b, Empty)
    ensures Browse([t, t], [1, 1], START) == (a + b, true)
  {
    assert [t, t][1..] == [t] && [1, 1][1..] == [1];
  }

  /** Two videos of one microsecond and pages of one: the cursor of the first page
      skips the second video, and the push feed ends without it; the pull feed
      shows both. */
  lemma TiedVideoIsSkipped(v: Video, w: Video)
    requires Tied(v, w)
    ensures var (z, t) := ({v.key, w.key}, TableOfTwo(v, w));
            && Proper(t) && Keys(t) == z
            && BrowsePush([z, z], [t, t], [1, 1], START) == ([v], true)
            && Browse([t, t], [1, 1], START) == ([v, w], true)
  {
    var z, t := {v.key, w.key}, TableOfTwo(v, w);
    TiedListings(v, w);
    TiedPushPages(v, w);
    PushTwice(z, t, v.key, [v], []);
    TiedPullPages(v, w);
    PullTwice(t, v.key, [v], [w]);
    assert [v] + [] == [v] && [v] + [w] == [v, w];
  }

  /** A table with more videos than the cap: read in pages of the cap, the push
      feed says it is at its end after the first, the pull feed goes on. */
  lemma PushEndsAtTheCap(t: Table, cap: Limit)
    requires Proper(t) && |Keys(t)| > cap
    ensures PushFetch(Top(Keys(t), cap), t, START, cap).value.next == Empty
    ensures Fetch(t, START, cap).value.next.Token?
  {
    var z := Top(Keys(t), cap);
    TopSize(Keys(t), cap);
    assert EntriesBelow(z, START) == z && Below(Keys(t), None) == Keys(t);
    DescFacts(z);
    PushGoesOnIff(z, t, START, cap);
    PageContract(t, START, cap);
  }

  /** Three cached videos, the newest of them deleted, and pages of one: the push
      feed ends after the second, and the third, still cached and in the table,
      is never shown. */
  lemma DeletedVideoEndsTheFeed(gone: Key, v: Video, w: Video)
    requires Less(v.key, gone) && Less(w.key, v.key) && gone.id != v.key.id && gone.id != w.key.id && v.key.id != w.key.id
    requires v.key.id != 0 && w.key.id != 0 && v.key.at != ZERO_TIME && w.key.at != ZERO_TIME
    ensures var (z, t) := ({gone, v.key, w.key}, map[v.key.id := v, w.key.id := w]);
            Proper(t) && PushFetch(z, t, START, 1) == Ok(Page([v], Empty))
  {
    var z, t := {gone, v.key, w.key}, map[v.key.id := v, w.key.id := w];
    var q := [gone, v.key, w.key];
    assert Elements(q) == z;
    DescIsUnique(q);
    assert EntriesBelow(z, START) == z;
    var r := [gone, v.key];
    assert q[..2] == r;
    assert r[..1] == [gone] && [gone][..0] == [];
    assert Hydrated(t, [gone]) == [];
    assert Hydrated(t, r) == [v];
  }
}
