/** The order both feeds page by: creation time in microseconds, then id, newest
    first.  A video's key is also its entry in the sorted-set cache (the score
    and the member). */
module FeedKeys {
  import opened Common

  datatype Key = Key(at: int, id: nat)

  predicate Less(a: Key, b: Key) {
    a.at < b.at || (a.at == b.at && a.id < b.id)
  }

  predicate IsNewest(k: Key, s: set<Key>) {
    k in s && forall x :: x in s && x != k ==> Less(x, k)
  }

  lemma {:induction false} NewestExists(s: set<Key>)
    requires s != {}
    ensures exists k :: IsNewest(k, s)
    decreases |s|
  {
    var x :| x in s;
    if s == {x} {
      assert IsNewest(x, s);
    } else {
      var rest := s - {x};
      assert s == rest + {x};
      NewestExists(rest);
      var k :| IsNewest(k, rest);
      if Less(k, x) {
        forall y | y in s && y != x ensures Less(y, x) { assert y in rest; }
        assert IsNewest(x, s);
      } else {
        forall y | y in s && y != k ensures Less(y, k) { assert y == x || y in rest; }
        assert IsNewest(k, s);
      }
    }
  }

  function Newest(s: set<Key>): (k: Key)
    requires s != {}
    ensures IsNewest(k, s)
  {
    NewestExists(s);
    var k :| k in s && IsNewest(k, s);
    k
  }

  /** The keys of a set, newest first. */
  function Desc(s: set<Key>): seq<Key> {
    if s == {} then []
    else
      var k := Newest(s);
      [k] + Desc(s - {k})
  }

  predicate Descending(q: seq<Key>) {
    forall i, j :: 0 <= i < j < |q| ==> Less(q[j], q[i])
  }

  function Elements(q: seq<Key>): set<Key> {
    set k | k in q
  }

  lemma NewerFirst(k: Key, rest: seq<Key>)
    requires Descending(rest) && forall x :: x in Elements(rest) ==> Less(x, k)
    ensures Descending([k] + rest) && Elements([k] + rest) == {k} + Elements(rest)
  {
    assert forall i :: 0 <= i < |rest| ==> rest[i] in Elements(rest);
    assert forall x :: x in [k] + rest <==> x == k || x in rest;
  }

  lemma {:induction false} DescFacts(s: set<Key>)
    ensures |Desc(s)| == |s| && Elements(Desc(s)) == s && Descending(Desc(s))
    decreases |s|
  {
    if s != {} {
      var k := Newest(s);
      DescFacts(s - {k});
      NewerFirst(k, Desc(s - {k}));
    }
  }

  /** A descending sequence is the listing of its own elements. */
  lemma {:induction false} DescIsUnique(q: seq<Key>)
    requires Descending(q)
    ensures Desc(Elements(q)) == q
  {
    if q != [] {
      var s := Elements(q);
      assert q[0] in s;
      var k := Newest(s);
      assert k in q;
      var i :| 0 <= i < |q| && q[i] == k;
      assert i > 0 ==> Less(q[i], q[0]);
      assert k == q[0];
      assert s - {k} == Elements(q[1..]) by {
        forall x | x in s - {k}
          ensures x in q[1..]
        {
          var i :| 0 <= i < |q| && q[i] == x;
          assert q[1..][i - 1] == x;
        }
        forall x | x in q[1..]
          ensures x in s && x != k
        {
          var i :| 0 <= i < |q[1..]| && q[1..][i] == x;
          assert q[i + 1] == x && Less(q[i + 1], q[0]);
        }
      }
      DescIsUnique(q[1..]);
    }
  }

  /** The keys after a cursor; None is the start of the feed. */
  function Below(s: set<Key>, c: Option<Key>): set<Key> {
    set k | k in s && (c.None? || Less(k, c.value))
  }

  function Take<T>(q: seq<T>, n: nat): seq<T> {
    if |q| <= n then q else q[..n]
  }

  /** Cutting the listing after its first n keys leaves the listing from the
      n-th key as cursor. */
  lemma RestOfListing(s: set<Key>, c: Option<Key>, n: nat)
    requires 0 < n <= |Below(s, c)|
    ensures |Desc(Below(s, c))| == |Below(s, c)|
    ensures var q := Desc(Below(s, c)); Desc(Below(s, Some(q[n - 1]))) == q[n..]
  {
    var q := Desc(Below(s, c));
    DescFacts(Below(s, c));
    assert Elements(q[n..]) == Below(s, Some(q[n - 1])) by {
      forall k | k in q[n..]
        ensures k in Below(s, Some(q[n - 1]))
      {
        var i :| 0 <= i < |q[n..]| && q[n..][i] == k;
        assert q[n + i] == k && k in Elements(q);
      }
      forall k | k in Below(s, Some(q[n - 1]))
        ensures k in q[n..]
      {
        assert q[n - 1] in Elements(q);
        assert k in Below(s, c);
        assert k in Elements(q);
        var i :| 0 <= i < |q| && q[i] == k;
        assert i >= n;
        assert q[n..][i - n] == k;
      }
    }
    assert Descending(q[n..]);
    DescIsUnique(q[n..]);
  }
}
