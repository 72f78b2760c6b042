/** The `/history` queries: `find({userId}).sort({timestamp: -1}).limit(n)` over
    one collection, for any record type with an owner and a timestamp. */
module History {
  import opened Common

  /** `find({userId: uid})`: the records owned by `uid`, in insertion order. */
  function Owned<T(!new)>(s: seq<T>, owner: T -> UserId, uid: UserId): (r: seq<T>)
    ensures forall x :: multiset(r)[x] == (if owner(x) == uid then multiset(s)[x] else 0)
  {
    if s == [] then []
    else
      assert s == [s[0]] + s[1..];
      var rest := Owned(s[1..], owner, uid);
      if owner(s[0]) == uid then [s[0]] + rest else rest
  }

  /** Ordered by descending timestamp. */
  ghost predicate NewestFirst<T>(s: seq<T>, ts: T -> Timestamp)
  {
    forall i, j :: 0 <= i < j < |s| ==> ts(s[i]) >= ts(s[j])
  }

  /** Puts `x` into a newest-first sequence, after every record at least as new. */
  function Insert<T>(x: T, s: seq<T>, ts: T -> Timestamp): (r: seq<T>)
    requires NewestFirst(s, ts)
    ensures NewestFirst(r, ts)
    ensures multiset(r) == multiset(s) + multiset{x}
    ensures |r| == |s| + 1
  {
    if s == [] then [x]
    else if ts(x) > ts(s[0]) then
      HeadIsNewest(s, ts);
      ConsNewestFirst(x, s, ts);
      [x] + s
    else
      HeadIsNewest(s, ts);
      var rest := Insert(x, s[1..], ts);
      assert s == [s[0]] + s[1..];
      NoNewerThanBound(rest, s[1..], x, ts, ts(s[0]));
      ConsNewestFirst(s[0], rest, ts);
      [s[0]] + rest
  }

  /** The head of a newest-first sequence is its newest record, and the tail stays newest-first. */
  lemma HeadIsNewest<T>(s: seq<T>, ts: T -> Timestamp)
    requires NewestFirst(s, ts) && s != []
    ensures forall k :: 0 <= k < |s| ==> ts(s[k]) <= ts(s[0])
    ensures forall k :: 0 <= k < |s[1..]| ==> ts(s[1..][k]) <= ts(s[0])
    ensures NewestFirst(s[1..], ts)
  {
    forall k | 0 <= k < |s[1..]| ensures ts(s[1..][k]) <= ts(s[0]) {
      assert s[1..][k] == s[k + 1];
    }
    forall i, j | 0 <= i < j < |s[1..]| ensures ts(s[1..][i]) >= ts(s[1..][j]) {
      assert s[1..][i] == s[i + 1] && s[1..][j] == s[j + 1];
    }
  }

  /** A sequence holding the records of `s` and `x` is bounded by a bound of both. */
  lemma NoNewerThanBound<T>(r: seq<T>, s: seq<T>, x: T, ts: T -> Timestamp, b: Timestamp)
    requires multiset(r) == multiset(s) + multiset{x}
    requires ts(x) <= b && forall k :: 0 <= k < |s| ==> ts(s[k]) <= b
    ensures forall k :: 0 <= k < |r| ==> ts(r[k]) <= b
  {
    forall k | 0 <= k < |r| ensures ts(r[k]) <= b {
      assert r[k] in multiset(r);
      if r[k] != x {
        assert r[k] in multiset(s);
        var j :| 0 <= j < |s| && s[j] == r[k];
      }
    }
  }

  /** A record at least as new as every record of a newest-first sequence can go in front. */
  lemma ConsNewestFirst<T>(h: T, rest: seq<T>, ts: T -> Timestamp)
    requires NewestFirst(rest, ts)
    requires forall k :: 0 <= k < |rest| ==> ts(rest[k]) <= ts(h)
    ensures NewestFirst([h] + rest, ts)
  {
    var r := [h] + rest;
    forall i, j | 0 <= i < j < |r| ensures ts(r[i]) >= ts(r[j]) {
      assert r[j] == rest[j - 1];
      if i > 0 {
        assert r[i] == rest[i - 1];
      }
    }
  }

  /** `sort({timestamp: -1})`: a newest-first ordering of the same records. */
  function SortNewestFirst<T>(s: seq<T>, ts: T -> Timestamp): (r: seq<T>)
    ensures NewestFirst(r, ts)
    ensures multiset(r) == multiset(s)
    ensures |r| == |s|
  {
    if s == [] then []
    else
      assert s == [s[0]] + s[1..];
      Insert(s[0], SortNewestFirst(s[1..], ts), ts)
  }

  /** In a newest-first sequence, whatever a prefix leaves out is no newer than anything in it. */
  lemma PrefixIsNewest<T>(sorted: seq<T>, ts: T -> Timestamp, n: nat)
    requires NewestFirst(sorted, ts) && n <= |sorted|
    ensures forall x, y :: x in multiset(sorted) - multiset(sorted[..n]) && y in sorted[..n] ==> ts(x) <= ts(y)
  {
    assert sorted == sorted[..n] + sorted[n..];
    assert multiset(sorted) - multiset(sorted[..n]) == multiset(sorted[n..]);
    forall x, y | x in multiset(sorted[n..]) && y in sorted[..n] ensures ts(x) <= ts(y) {
      var j :| 0 <= j < |sorted[n..]| && sorted[n..][j] == x;
      var i :| 0 <= i < n && sorted[..n][i] == y;
      assert sorted[i] == y && sorted[n + j] == x;
    }
  }

  /** A prefix keeps the order and holds only records of the whole. */
  lemma PrefixOf<T>(sorted: seq<T>, ts: T -> Timestamp, n: nat)
    requires NewestFirst(sorted, ts) && n <= |sorted|
    ensures NewestFirst(sorted[..n], ts)
    ensures multiset(sorted[..n]) <= multiset(sorted)
  {
    assert sorted == sorted[..n] + sorted[n..];
  }

  /** The whole query: the caller's records, newest first, at most `limit` of them. */
  function Query<T(!new)>(s: seq<T>, owner: T -> UserId, ts: T -> Timestamp, uid: UserId, limit: nat): (r: seq<T>)
    ensures forall x :: x in r ==> x in s && owner(x) == uid
    ensures NewestFirst(r, ts)
    ensures |r| == if |Owned(s, owner, uid)| <= limit then |Owned(s, owner, uid)| else limit
    ensures multiset(r) <= multiset(Owned(s, owner, uid))
    ensures forall x, y :: x in multiset(Owned(s, owner, uid)) - multiset(r) && y in r ==> ts(x) <= ts(y)
  {
    var owned := Owned(s, owner, uid);
    var sorted := SortNewestFirst(owned, ts);
    var n := if |sorted| <= limit then |sorted| else limit;
    PrefixIsNewest(sorted, ts, n);
    PrefixOf(sorted, ts, n);
    var r := sorted[..n];
    assert forall x :: x in r ==> x in s && owner(x) == uid by {
      forall x | x in r ensures x in s && owner(x) == uid {
        assert x in multiset(r);
        assert x in multiset(owned);
      }
    }
    r
  }
}
