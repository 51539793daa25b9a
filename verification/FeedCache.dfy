/** The capped sorted set behind the push feed, and concurrent Publish calls:
    each is a ZADD and a ZREMRANGEBYRANK, atomic one by one but not together. */
module FeedCache {
  import opened Common
  import opened FeedKeys

  /** Entries by member are unique in a sorted set. */
  predicate DistinctMembers(z: set<Key>) {
    forall a, b :: a in z && b in z && a.id == b.id ==> a == b
  }

  /** ZADD: a member that is already there gets the new score. */
  function ZAdd(z: set<Key>, k: Key): set<Key> {
    (set x | x in z && x.id != k.id) + {k}
  }

  /** Ascending rank, by score and then member. */
  function Rank(z: set<Key>, k: Key): nat {
    |set x | x in z && Less(x, k)|
  }

  /** ZREMRANGEBYRANK; negative indices count from the end. */
  function ZRemRangeByRank(z: set<Key>, start: int, stop: int): set<Key> {
    var from := Max(if start < 0 then |z| + start else start, 0);
    var to := if stop < 0 then |z| + stop else stop;
    set k | k in z && !(from <= Rank(z, k) <= to)
  }

  function Trim(z: set<Key>, cap: nat): set<Key> {
    var stop: int := -1 - cap as int;
    ZRemRangeByRank(z, 0, stop)
  }

  function Above(z: set<Key>, k: Key): set<Key> {
    set x | x in z && Less(k, x)
  }

  /** The cap newest entries: those with fewer than cap entries above them. */
  function Top(z: set<Key>, cap: nat): set<Key> {
    set k | k in z && |Above(z, k)| < cap
  }

  /** Dropping ranks 0 to -cap-1 keeps exactly the cap newest entries. */
  lemma TrimKeepsTheTop(z: set<Key>, cap: nat)
    ensures Trim(z, cap) == Top(z, cap)
  {
    forall k | k in z
      ensures Rank(z, k) + |Above(z, k)| + 1 == |z|
    {
      var below := set x | x in z && Less(x, k);
      assert z == below + Above(z, k) + {k};
      assert below !! Above(z, k);
    }
  }

  /** Trimming loses nothing that counts: it keeps cap entries above k, or all. */
  lemma {:induction false} TopKeepsWhatIsAbove(z: set<Key>, cap: nat, k: Key)
    ensures |Above(Top(z, cap), k)| >= Min(cap, |Above(z, k)|)
    decreases |Above(z, k)|
  {
    var above := Above(z, k);
    if above != {} {
      var m := Lowest(above);
      assert Above(z, m) == above - {m};
      TopKeepsWhatIsAbove(z, cap, m);
      var kept := Above(Top(z, cap), m);
      if |Above(z, m)| < cap {
        assert m in Top(z, cap);
        assert kept + {m} <= Above(Top(z, cap), k);
        SubsetIsNotLarger(kept + {m}, Above(Top(z, cap), k));
      } else {
        assert kept <= Above(Top(z, cap), k);
        SubsetIsNotLarger(kept, Above(Top(z, cap), k));
      }
    }
  }

  lemma {:induction false} Lowest(s: set<Key>) returns (m: Key)
    requires s != {}
    ensures m in s && forall x :: x in s && x != m ==> Less(m, x)
    decreases |s|
  {
    m :| m in s;
    if s != {m} {
      var rest := s - {m};
      assert s == rest + {m};
      var l := Lowest(rest);
      m := if Less(m, l) then m else l;
    }
  }

  /** Trimming early changes nothing that a later trim would keep. */
  lemma TopAbsorbsTop(z: set<Key>, more: set<Key>, cap: nat)
    ensures Top(Top(z, cap) + more, cap) == Top(z + more, cap)
  {
    var x, y := Top(z, cap) + more, z + more;
    assert x <= y;
    forall k | k in y
      ensures k in Top(x, cap) <==> k in Top(y, cap)
    {
      assert Above(x, k) <= Above(y, k);
      SubsetIsNotLarger(Above(x, k), Above(y, k));
      if |Above(y, k)| < cap && k in z {
        assert Above(z, k) <= Above(y, k);
        SubsetIsNotLarger(Above(z, k), Above(y, k));
        assert k in Top(z, cap);
      }
      if |Above(y, k)| >= cap {
        EnoughAbove(z, more, cap, k);
      }
    }
  }

  /** If cap entries are above k, cap are still above it after the early trim. */
  lemma EnoughAbove(z: set<Key>, more: set<Key>, cap: nat, k: Key)
    requires |Above(z + more, k)| >= cap
    ensures |Above(Top(z, cap) + more, k)| >= cap
  {
    var x, y := Top(z, cap) + more, z + more;
    if Above(z, k) <= Top(z, cap) {
      assert Above(x, k) == Above(y, k);
    } else {
      var a :| a in Above(z, k) && a !in Top(z, cap);
      TopKeepsWhatIsAbove(z, cap, a);
      assert Above(Top(z, cap), a) <= Above(x, k);
      SubsetIsNotLarger(Above(Top(z, cap), a), Above(x, k));
    }
  }

  /** ZADD of several members at once. */
  function ZAddAll(z: set<Key>, keys: set<Key>): set<Key> {
    (set x | x in z && !(exists k :: k in keys && k.id == x.id)) + keys
  }

  /** The atomic steps of Publish calls, by caller, and of Warmup, which adds the
      rows it has read. */
  datatype Step = Add(who: nat, key: Key) | Reap(who: nat) | Load(rows: set<Key>)

  function Apply(z: set<Key>, s: Step, cap: nat): set<Key> {
    match s
    case Add(_, k) => ZAdd(z, k)
    case Reap(_) => Trim(z, cap)
    case Load(rows) => ZAddAll(z, rows)
  }

  function Run(z: set<Key>, steps: seq<Step>, cap: nat): set<Key> {
    if steps == [] then z else Apply(Run(z, steps[..|steps| - 1], cap), steps[|steps| - 1], cap)
  }

  function Added(s: Step): set<Key> {
    match s
    case Add(_, k) => {k}
    case Reap(_) => {}
    case Load(rows) => rows
  }

  /** Everything published or loaded. */
  function Published(steps: seq<Step>): set<Key> {
    if steps == [] then {} else Published(steps[..|steps| - 1]) + Added(steps[|steps| - 1])
  }

  /** At any point the newest cap entries of the set are those of everything that
      was ever there, whatever was trimmed in between. */
  lemma {:induction false} TopIsNeverLost(z: set<Key>, steps: seq<Step>, cap: nat)
    requires DistinctMembers(z + Published(steps))
    ensures Top(Run(z, steps, cap), cap) == Top(z + Published(steps), cap)
    ensures Run(z, steps, cap) <= z + Published(steps)
  {
    if steps == [] {
      assert z + Published(steps) == z;
    } else {
      var before, s := steps[..|steps| - 1], steps[|steps| - 1];
      var all, r := z + Published(before), Run(z, before, cap);
      assert all + Added(s) == z + Published(steps);
      TopIsNeverLost(z, before, cap);
      match s
      case Add(_, k) =>
        AddOfNewScore(r, k);
        TopAfterAdd(r, all, {k}, cap);
      case Reap(_) =>
        assert all == z + Published(steps);
        TopAfterCut(r, cap);
      case Load(rows) =>
        assert ZAddAll(r, rows) == r + rows;
        TopAfterAdd(r, all, rows, cap);
    }
  }

  /** Adding a member again moves it to the new score and touches no other. */
  lemma AddReplaces(z: set<Key>, k: Key, x: Key)
    ensures x in ZAdd(z, k) <==> x == k || (x in z && x.id != k.id)
    ensures k !in z && (exists y :: y in z && y.id == k.id) && DistinctMembers(z) ==> |ZAdd(z, k)| == |z|
  {
    if k !in z && (exists y :: y in z && y.id == k.id) && DistinctMembers(z) {
      var y :| y in z && y.id == k.id;
      assert ZAdd(z, k) == z - {y} + {k};
    }
  }

  /** So does adding several at once; members stay unique. */
  lemma AddAllReplaces(z: set<Key>, rows: set<Key>, x: Key)
    requires DistinctMembers(z) && DistinctMembers(rows)
    ensures DistinctMembers(ZAddAll(z, rows)) && rows <= ZAddAll(z, rows) <= z + rows
    ensures x in z && (forall k :: k in rows ==> k.id != x.id) ==> x in ZAddAll(z, rows)
  {}

  lemma AddOfNewScore(z: set<Key>, k: Key)
    requires forall x :: x in z && x.id == k.id ==> x == k
    ensures ZAdd(z, k) == z + {k}
  {}

  lemma TopAfterAdd(r: set<Key>, all: set<Key>, more: set<Key>, cap: nat)
    requires Top(r, cap) == Top(all, cap)
    ensures Top(r + more, cap) == Top(all + more, cap)
  {
    TopAbsorbsTop(r, more, cap);
    TopAbsorbsTop(all, more, cap);
  }

  lemma TopAfterCut(r: set<Key>, cap: nat)
    ensures Trim(r, cap) == Top(r, cap) == Top(Trim(r, cap), cap)
  {
    TrimKeepsTheTop(r, cap);
    TopAbsorbsTop(r, {}, cap);
    assert Top(r, cap) + {} == Top(r, cap) && r + {} == r;
  }

  /** Every Publish that added its video has also trimmed, and so has one after
      every Warmup. */
  predicate AllFinished(steps: seq<Step>) {
    forall i :: 0 <= i < |steps| && !steps[i].Reap? ==>
      exists j :: i < j < |steps| && steps[j].Reap? && (steps[i].Add? ==> steps[j].who == steps[i].who)
  }

  /** Confluence: for every interleaving of any number of Publish and Warmup
      calls, once all have finished the set is exactly the cap newest of what was
      there before and everything added. */
  lemma PublishesConfluent(z: set<Key>, steps: seq<Step>, cap: nat)
    requires DistinctMembers(z + Published(steps)) && steps != [] && AllFinished(steps)
    ensures Run(z, steps, cap) == Top(z + Published(steps), cap)
  {
    var last := steps[|steps| - 1];
    assert last.Reap?;
    var r := Run(z, steps[..|steps| - 1], cap);
    TopAfterCut(r, cap);
    TopIsNeverLost(z, steps, cap);
  }

  /** The cap newest entries are closed upwards. */
  lemma TopIsClosedUpwards(z: set<Key>, cap: nat, k: Key, x: Key)
    requires k in Top(z, cap) && x in z && Less(k, x)
    ensures x in Top(z, cap)
  {
    SubsetIsNotLarger(Above(z, x), Above(z, k));
  }

  lemma {:induction false} TopSize(z: set<Key>, cap: nat)
    ensures |Top(z, cap)| == Min(cap, |z|)
  {
    if z == {} {
      assert Top(z, cap) == {};
    } else {
      var m := Lowest(z);
      var rest := z - {m};
      assert Above(z, m) == rest;
      forall k | k in rest
        ensures Above(z, k) == Above(rest, k)
      {}
      TopSize(rest, cap);
      assert z == rest + {m};
      assert Top(z, cap) == Top(rest, cap) + if |rest| < cap then {m} else {};
    }
  }

  /** One Publish alone keeps the cap newest, and members stay distinct. */
  lemma PublishOne(z: set<Key>, k: Key, cap: nat)
    requires DistinctMembers(z)
    ensures var after := Trim(ZAdd(z, k), cap);
            && DistinctMembers(after) && |after| == Min(cap, |ZAdd(z, k)|)
            && ((forall x :: x in z ==> x.id != k.id) ==> after == Top(z + {k}, cap))
  {
    TrimKeepsTheTop(ZAdd(z, k), cap);
    TopSize(ZAdd(z, k), cap);
    if forall x :: x in z ==> x.id != k.id {
      AddOfNewScore(z, k);
    }
  }
}
