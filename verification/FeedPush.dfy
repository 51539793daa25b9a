/** The feed from the sorted-set cache: take a score range, hydrate the ids from
    Postgres in whatever order it returns them, restore the order in place, cut
    the page. */
module FeedPush {
  import opened Common
  import opened FeedKeys
  import opened FeedPull
  import opened FeedCache

  /** ZREVRANGEBYSCORE with the cursor's score as exclusive upper bound. */
  function EntriesBelow(z: set<Key>, cursor: Key): set<Key> {
    set k | k in z && (cursor == START || k.at < cursor.at)
  }

  function RevRange(z: set<Key>, cursor: Key, count: nat): seq<Key> {
    Take(Desc(EntriesBelow(z, cursor)), count)
  }

  /** The rows of the listed ids that still exist, in listing order. */
  function Hydrated(t: Table, q: seq<Key>): seq<Video> {
    if q == [] then []
    else
      var k := q[|q| - 1];
      Hydrated(t, q[..|q| - 1]) + if k.id in t then [t[k.id]] else []
  }

  function PushFetch(z: set<Key>, t: Table, cursor: Key, limit: int): Result<Page> {
    if limit <= 0 then Err("limit must be positive")
    else Ok(Cut(Hydrated(t, RevRange(z, cursor, limit + 1)), limit))
  }

  // ----- restoring the order -----

  /** A map lookup with the zero default. */
  function Ord(order: map<nat, nat>, v: Video): nat {
    if v.key.id in order then order[v.key.id] else 0
  }

  predicate SortedBy(order: map<nat, nat>, vs: seq<Video>) {
    forall i, j :: 0 <= i < j < |vs| ==> Ord(order, vs[i]) <= Ord(order, vs[j])
  }

  /** While row j is sinking: rows 0..i are sorted but for j, and those past j
      are not before it. */
  predicate Sinking(order: map<nat, nat>, vs: seq<Video>, i: nat, j: nat) {
    && j <= i < |vs|
    && (forall a, b :: 0 <= a < b <= i && a != j && b != j ==> Ord(order, vs[a]) <= Ord(order, vs[b]))
    && (forall b :: j < b <= i ==> Ord(order, vs[j]) <= Ord(order, vs[b]))
  }

  function SwappedDown(vs: seq<Video>, j: nat): seq<Video>
    requires 0 < j < |vs|
  {
    vs[j := vs[j - 1]][j - 1 := vs[j]]
  }

  lemma SwapKeepsSinking(order: map<nat, nat>, vs: seq<Video>, i: nat, j: nat)
    requires Sinking(order, vs, i, j) && j > 0 && Ord(order, vs[j]) < Ord(order, vs[j - 1])
    ensures Sinking(order, SwappedDown(vs, j), i, j - 1)
  {
    var ws := SwappedDown(vs, j);
    forall a, b | 0 <= a < b <= i && a != j - 1 && b != j - 1
      ensures Ord(order, ws[a]) <= Ord(order, ws[b])
    {
      var a', b' := if a == j then j - 1 else a, if b == j then j - 1 else b;
      assert ws[a] == vs[a'] && ws[b] == vs[b'];
    }
  }

  lemma SwapKeepsRows(vs: seq<Video>, j: nat)
    requires 0 < j < |vs|
    ensures multiset(SwappedDown(vs, j)) == multiset(vs)
  {}

  lemma SunkIsSorted(order: map<nat, nat>, vs: seq<Video>, i: nat, j: nat)
    requires Sinking(order, vs, i, j) && (j > 0 ==> Ord(order, vs[j - 1]) <= Ord(order, vs[j]))
    ensures SortedBy(order, vs[..i + 1])
  {}

  /** The in-place insertion sort. */
  method SortByOrder(vs: array<Video>, order: map<nat, nat>)
    modifies vs
    ensures SortedBy(order, vs[..])
    ensures multiset(vs[..]) == multiset(old(vs[..]))
  {
    if vs.Length == 0 {
      return;
    }
    for i := 1 to vs.Length
      invariant SortedBy(order, vs[..i])
      invariant multiset(vs[..]) == multiset(old(vs[..]))
    {
      var j := i;
      assert Sinking(order, vs[..], i, j) by {
        assert forall a :: 0 <= a < i ==> vs[..i][a] == vs[a];
      }
      while j > 0 && Ord(order, vs[j]) < Ord(order, vs[j - 1])
        invariant Sinking(order, vs[..], i, j)
        invariant multiset(vs[..]) == multiset(old(vs[..]))
      {
        ghost var before := vs[..];
        vs[j], vs[j - 1] := vs[j - 1], vs[j];
        assert vs[..] == SwappedDown(before, j);
        SwapKeepsSinking(order, before, i, j);
        SwapKeepsRows(before, j);
        j := j - 1;
      }
      SunkIsSorted(order, vs[..], i, j);
      assert vs[..][..i + 1] == vs[..i + 1];
    }
    assert vs[..vs.Length] == vs[..];
  }

  predicate DistinctRows(vs: seq<Video>) {
    forall i, j :: 0 <= i < j < |vs| ==> vs[i].key.id != vs[j].key.id
  }

  /** The map from id to position of the listing. */
  predicate Positions(order: map<nat, nat>, q: seq<Key>) {
    forall i :: 0 <= i < |q| ==> q[i].id in order && order[q[i].id] == i
  }

  /** Each hydrated row has its listing position as rank, and ranks increase. */
  lemma {:induction false} HydratedInOrder(t: Table, q: seq<Key>, order: map<nat, nat>)
    requires Proper(t) && Positions(order, q)
    ensures var vs := Hydrated(t, q);
            && (forall v :: v in vs <==> v.key.id in t && t[v.key.id] == v && exists i :: 0 <= i < |q| && q[i].id == v.key.id)
            && (forall v :: v in vs ==> Ord(order, v) < |q|)
            && (forall i, j :: 0 <= i < j < |vs| ==> Ord(order, vs[i]) < Ord(order, vs[j]))
  {
    if q != [] {
      var n := |q| - 1;
      var init, k := q[..n], q[n];
      HydratedInOrder(t, init, order);
      var vs := Hydrated(t, q);
      forall v
        ensures v in vs <==> v.key.id in t && t[v.key.id] == v && exists i :: 0 <= i < |q| && q[i].id == v.key.id
      {
        if i :| 0 <= i < |q| && q[i].id == v.key.id {
          assert i < n ==> init[i].id == v.key.id;
        }
        if v in Hydrated(t, init) {
          var i :| 0 <= i < |init| && init[i].id == v.key.id;
          assert q[i].id == v.key.id;
        }
      }
    }
  }

  /** Rows with strictly increasing ranks are determined by which rows they are. */
  lemma {:induction false} SameRowsSameOrder(a: seq<Video>, b: seq<Video>, order: map<nat, nat>)
    requires forall i, j :: 0 <= i < j < |a| ==> Ord(order, a[i]) < Ord(order, a[j])
    requires forall i, j :: 0 <= i < j < |b| ==> Ord(order, b[i]) < Ord(order, b[j])
    requires forall v :: v in a <==> v in b
    ensures a == b
  {
    assert b == [] || b[0] in b;
    if a != [] {
      var x := a[0];
      assert x in b;
      assert b[0] in a;
      var j :| 0 <= j < |b| && b[j] == x;
      var i :| 0 <= i < |a| && a[i] == b[0];
      assert i == 0 && j == 0;
      forall v
        ensures v in a[1..] <==> v in b[1..]
      {
        assert v in a <==> v == x || v in a[1..];
        assert v in b <==> v == x || v in b[1..];
        assert x !in a[1..] && x !in b[1..];
      }
      SameRowsSameOrder(a[1..], b[1..], order);
    }
  }

  /** The cache behind the push fetcher. */
  class PushFetcher {
    var zset: set<Key>
    const cap: nat

    predicate Valid()
      reads this
    {
      DistinctMembers(zset)
    }

    constructor (cap: int)
      ensures zset == {} && this.cap == if cap <= 0 then 1000 else cap
      ensures Valid()
    {
      zset := {};
      this.cap := if cap <= 0 then 1000 else cap;
    }

    method Publish(v: Video)
      requires Valid()
      modifies this
      ensures Valid() && zset == Trim(ZAdd(old(zset), v.key), cap)
      ensures (forall k :: k in old(zset) ==> k.id != v.key.id) ==> zset == Top(old(zset) + {v.key}, cap)
      ensures |zset| <= cap
    {
      PublishOne(zset, v.key, cap);
      zset := ZAdd(zset, v.key);
      zset := Trim(zset, cap);
    }

    /** Adds the newest rows; does not trim. */
    method Warmup(src: Repository)
      requires Valid() && Proper(src.rows) && cap > 0 && src as object != this
      requires DistinctMembers(zset + Keys(src.rows))
      modifies this
      ensures Valid() && zset == old(zset) + Top(Keys(src.rows), cap)
    {
      var rows := src.FeedPage(START, cap);
      ghost var z0, keys := zset, Keys(src.rows);
      ghost var q := Take(Desc(keys), cap);
      WarmupRows(src.rows, cap);
      for i := 0 to |rows|
        invariant zset == z0 + Elements(q[..i])
      {
        AddNext(z0, keys, q, i);
        zset := ZAdd(zset, rows[i].key);
      }
      assert q[..|rows|] == q;
      FirstOfListingIsTop(keys, cap);
    }

    method Fetch(src: Repository, cursor: Key, limit: int) returns (r: Result<Page>)
      requires Valid() && Proper(src.rows)
      ensures r == PushFetch(zset, src.rows, cursor, limit)
    {
      if limit <= 0 {
        return Err("limit must be positive");
      }
      var entries := RevRange(zset, cursor, limit + 1);
      assert MembersDiffer(entries) by { ListingMembersDiffer(EntriesBelow(zset, cursor), limit + 1); }
      if |entries| == 0 {
        return Ok(Page([], Empty));
      }
      var uuids: seq<nat> := [];
      var order: map<nat, nat> := map[];
      for i := 0 to |entries|
        invariant |uuids| == i && forall j :: 0 <= j < i ==> uuids[j] == entries[j].id
        invariant forall j :: 0 <= j < i ==> entries[j].id in order && order[entries[j].id] == j
      {
        uuids := uuids + [entries[i].id];
        order := order[entries[i].id := i];
      }
      var videos := src.FindByIDs(uuids);
      var sorted := new Video[|videos|](i requires 0 <= i < |videos| => videos[i]);
      assert sorted[..] == videos;
      SortByOrder(sorted, order);
      RestoredOrder(src.rows, entries, uuids, order, videos, sorted[..]);
      r := Ok(Cut(sorted[..], limit));
    }
  }

  predicate MembersDiffer(q: seq<Key>) {
    forall i, j :: 0 <= i < j < |q| ==> q[i].id != q[j].id
  }

  lemma ListingMembersDiffer(s: set<Key>, n: nat)
    requires DistinctMembers(s)
    ensures MembersDiffer(Take(Desc(s), n))
  {
    DescFacts(s);
    var q := Desc(s);
    forall i, j | 0 <= i < j < |q|
      ensures q[i].id != q[j].id
    {
      assert q[i] in Elements(q) && q[j] in Elements(q) && Less(q[j], q[i]);
    }
  }

  /** Whatever order the rows came in, sorting them by listing position gives the
      listing's rows in listing order. */
  lemma RestoredOrder(t: Table, q: seq<Key>, ids: seq<nat>, order: map<nat, nat>, found: seq<Video>, sorted: seq<Video>)
    requires Proper(t) && Positions(order, q)
    requires |ids| == |q| && forall i :: 0 <= i < |q| ==> ids[i] == q[i].id
    requires DistinctRows(found)
    requires forall v :: v in found <==> v.key.id in ids && v.key.id in t && t[v.key.id] == v
    requires SortedBy(order, sorted) && multiset(sorted) == multiset(found)
    ensures sorted == Hydrated(t, q)
  {
    HydratedInOrder(t, q, order);
    forall v
      ensures v in sorted <==> v in Hydrated(t, q)
    {
      assert v in sorted <==> v in multiset(sorted);
      assert v in found <==> v in multiset(found);
      if v.key.id in ids {
        var i :| 0 <= i < |ids| && ids[i] == v.key.id;
        assert q[i].id == v.key.id;
      }
      if i :| 0 <= i < |q| && q[i].id == v.key.id {
        assert ids[i] in ids;
      }
    }
    PermutedRowsAreDistinct(found, sorted);
    forall i, j | 0 <= i < j < |sorted|
      ensures Ord(order, sorted[i]) < Ord(order, sorted[j])
    {
      RanksDiffer(t, q, order, sorted[i], sorted[j]);
    }
    SameRowsSameOrder(sorted, Hydrated(t, q), order);
  }

  lemma RanksDiffer(t: Table, q: seq<Key>, order: map<nat, nat>, a: Video, b: Video)
    requires Proper(t) && Positions(order, q) && a.key.id != b.key.id
    requires a in Hydrated(t, q) && b in Hydrated(t, q)
    ensures Ord(order, a) != Ord(order, b)
  {
    HydratedInOrder(t, q, order);
    var i :| 0 <= i < |q| && q[i].id == a.key.id;
    var j :| 0 <= j < |q| && q[j].id == b.key.id;
  }

  lemma PermutedRowsAreDistinct(a: seq<Video>, b: seq<Video>)
    requires DistinctRows(a) && multiset(a) == multiset(b)
    ensures DistinctRows(b)
  {
    forall i, j | 0 <= i < j < |b|
      ensures b[i].key.id != b[j].key.id
    {
      if b[i] == b[j] {
        TwiceInSeq(b, i, j);
        OnceInDistinct(a, b[i]);
        assert false;
      }
      assert b[i] in multiset(a) && b[j] in multiset(a);
      assert b[i] in a && b[j] in a;
    }
  }

  lemma TwiceInSeq(b: seq<Video>, i: nat, j: nat)
    requires i < j < |b| && b[i] == b[j]
    ensures multiset(b)[b[i]] >= 2
  {
    assert b == b[..i] + [b[i]] + b[i + 1..j] + [b[j]] + b[j + 1..];
  }

  lemma OnceInDistinct(a: seq<Video>, v: Video)
    requires DistinctRows(a)
    ensures multiset(a)[v] <= 1
  {
    if v in a {
      var i :| 0 <= i < |a| && a[i] == v;
      var x, y := a[..i], a[i + 1..];
      assert a == x + [v] + y;
      assert v !in x && v !in y;
      assert multiset(a) == multiset(x) + multiset{v} + multiset(y);
    }
  }

  /** What Warmup reads: the first cap keys of the whole listing. */
  lemma WarmupRows(t: Table, cap: nat)
    requires Proper(t) && cap > 0
    ensures var (rows, q) := (PageRows(t, START, cap), Take(Desc(Keys(t)), cap));
            && |rows| == |q| && Elements(q) <= Keys(t)
            && forall i :: 0 <= i < |q| ==> rows[i].key == q[i]
  {
    ListingIsInTable(t, None);
    assert Below(Keys(t), None) == Keys(t);
    DescFacts(Keys(t));
    var q := Desc(Keys(t));
    assert forall i :: 0 <= i < |q| ==> q[i] in q;
    forall k | k in Take(q, cap)
      ensures k in Keys(t)
    {
      assert k in Elements(q);
    }
  }

  lemma AddNext(z: set<Key>, keys: set<Key>, q: seq<Key>, i: nat)
    requires i < |q| && Elements(q) <= keys && DistinctMembers(z + keys)
    ensures ZAdd(z + Elements(q[..i]), q[i]) == z + Elements(q[..i + 1])
  {
    assert q[..i + 1] == q[..i] + [q[i]];
    assert Elements(q[..i + 1]) == Elements(q[..i]) + {q[i]};
    assert q[i] in Elements(q);
    forall x | x in z + Elements(q[..i])
      ensures x in z + keys
    {
      if x in q[..i] { assert x in Elements(q); }
    }
    AddOfNewScore(z + Elements(q[..i]), q[i]);
  }

  /** The keys above the i-th of a listing are those before it. */
  lemma AboveIsThePrefix(s: set<Key>, i: nat)
    requires i < |Desc(s)|
    ensures Desc(s)[i] in s && Above(s, Desc(s)[i]) == Elements(Desc(s)[..i]) && |Above(s, Desc(s)[i])| == i
  {
    DescFacts(s);
    var q := Desc(s);
    assert q[i] in Elements(q);
    forall k | k in Above(s, q[i])
      ensures k in q[..i]
    {
      assert k in Elements(q);
      var j :| 0 <= j < |q| && q[j] == k;
      assert j < i;
      assert q[..i][j] == k;
    }
    forall k | k in q[..i]
      ensures k in Above(s, q[i])
    {
      var j :| 0 <= j < i && q[j] == k;
      assert k in Elements(q);
    }
    assert Descending(q[..i]);
    DescIsUnique(q[..i]);
    DescFacts(Elements(q[..i]));
  }

  /** The first cap keys of a listing are the cap newest entries. */
  lemma FirstOfListingIsTop(s: set<Key>, cap: nat)
    ensures Elements(Take(Desc(s), cap)) == Top(s, cap)
  {
    DescFacts(s);
    var q := Desc(s);
    forall k | k in s
      ensures k in Take(q, cap) <==> |Above(s, k)| < cap
    {
      assert k in Elements(q);
      var i :| 0 <= i < |q| && q[i] == k;
      AboveIsThePrefix(s, i);
      if i < cap {
        assert Take(q, cap)[i] == k;
      }
      if k in Take(q, cap) {
        var j :| 0 <= j < |Take(q, cap)| && Take(q, cap)[j] == k;
        assert q[j] == k;
        AboveIsThePrefix(s, j);
      }
    }
    forall k | k in Take(q, cap)
      ensures k in s
    {
      assert k in Elements(q);
    }
  }
}
