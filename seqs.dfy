/** Sequence operations standing for SQL clauses (WHERE, ORDER BY, LIMIT),
    Python slices and `random.shuffle`. */
module Seqs {

  function Filter<T>(s: seq<T>, p: T -> bool): (r: seq<T>)
    ensures |r| <= |s|
    ensures forall k :: 0 <= k < |s| && p(s[k]) ==> s[k] in r
    ensures forall k :: 0 <= k < |r| ==> p(r[k])
    ensures multiset(r) <= multiset(s)
  {
    if s == [] then []
    else
      assert s == [s[0]] + s[1..];
      if p(s[0]) then [s[0]] + Filter(s[1..], p)
      else Filter(s[1..], p)
  }

  lemma {:induction false} FilterAppend<T>(s: seq<T>, t: seq<T>, p: T -> bool)
    ensures Filter(s + t, p) == Filter(s, p) + Filter(t, p)
    decreases |s|
  {
    if s == [] {
      assert s + t == t;
    } else {
      var u := s + t;
      assert u != [] && u[0] == s[0] && u[1..] == s[1..] + t;
      var rest := Filter(s[1..] + t, p);
      FilterAppend(s[1..], t, p);
      assert rest == Filter(s[1..], p) + Filter(t, p);
      if p(s[0]) {
        assert Filter(u, p) == [s[0]] + rest;
        assert Filter(s, p) == [s[0]] + Filter(s[1..], p);
      } else {
        assert Filter(u, p) == rest;
        assert Filter(s, p) == Filter(s[1..], p);
      }
    }
  }

  /** An element survives a filter exactly when it was there and passes. */
  lemma {:induction false} FilterMembers<T>(s: seq<T>, p: T -> bool)
    ensures forall x :: x in Filter(s, p) <==> x in s && p(x)
  {
    if s != [] {
      FilterMembers(s[1..], p);
      assert s == [s[0]] + s[1..];
    }
  }

  /** Nothing passes a filter that no element satisfies. */
  lemma {:induction false} FilterNone<T>(s: seq<T>, p: T -> bool)
    requires forall k :: 0 <= k < |s| ==> !p(s[k])
    ensures Filter(s, p) == []
  {
    if s != [] {
      FilterNone(s[1..], p);
    }
  }

  /** A sort key: compared on `major` first, then on `minor`. */
  datatype Key = Key(major: int, minor: int)

  predicate KeyLe(a: Key, b: Key) {
    a.major < b.major || (a.major == b.major && a.minor <= b.minor)
  }

  ghost predicate SortedBy<T>(s: seq<T>, key: T -> Key) {
    forall j, k :: 0 <= j < k < |s| ==> KeyLe(key(s[j]), key(s[k]))
  }

  function InsertBy<T>(x: T, s: seq<T>, key: T -> Key): (r: seq<T>)
    requires SortedBy(s, key)
    ensures multiset(r) == multiset(s) + multiset{x}
    ensures SortedBy(r, key)
  {
    if s == [] then [x]
    else if KeyLe(key(x), key(s[0])) then [x] + s
    else
      var rest := InsertBy(x, s[1..], key);
      assert s == [s[0]] + s[1..];
      InsertedAfterHead(x, s, rest, key);
      [s[0]] + rest
  }

  lemma InsertedAfterHead<T>(x: T, s: seq<T>, rest: seq<T>, key: T -> Key)
    requires s != [] && SortedBy(s, key) && !KeyLe(key(x), key(s[0]))
    requires multiset(rest) == multiset(s[1..]) + multiset{x}
    requires SortedBy(rest, key)
    ensures SortedBy([s[0]] + rest, key)
  {
    forall k | 0 <= k < |rest|
      ensures KeyLe(key(s[0]), key(rest[k]))
    {
      assert rest[k] in multiset(rest);
      if rest[k] != x {
        assert rest[k] in multiset(s[1..]);
        var i :| 0 <= i < |s[1..]| && s[1..][i] == rest[k];
        assert s[i + 1] == rest[k];
      }
    }
  }

  /** The order an `ORDER BY` yields: sorted and a permutation of the rows
      (how ties fall is not promised). */
  function SortBy<T>(s: seq<T>, key: T -> Key): (r: seq<T>)
    ensures multiset(r) == multiset(s)
    ensures |r| == |s|
    ensures SortedBy(r, key)
  {
    if s == [] then []
    else
      assert s == [s[0]] + s[1..];
      InsertBy(s[0], SortBy(s[1..], key), key)
  }

  /** Sorting keeps exactly the elements it was given. */
  lemma SortByMembers<T>(s: seq<T>, key: T -> Key)
    ensures forall x :: x in SortBy(s, key) <==> x in s
  {
    var r := SortBy(s, key);
    assert forall x :: x in r <==> x in multiset(r);
    assert forall x :: x in s <==> x in multiset(s);
  }

  /** The first n of a sorted sequence hold its smallest keys: every element
      kept comes no later than any element cut. */
  lemma SortedPrefixLeast<T>(s: seq<T>, key: T -> Key, n: int)
    requires SortedBy(s, key) && 0 <= n <= |s|
    ensures forall v, w :: v in s[..n] && w in s && w !in s[..n] ==> KeyLe(key(v), key(w))
  {
    forall v, w | v in s[..n] && w in s && w !in s[..n]
      ensures KeyLe(key(v), key(w))
    {
      var i :| 0 <= i < n && s[..n][i] == v;
      var j :| 0 <= j < |s| && s[j] == w;
    }
  }

  /** No element occurs twice. */
  ghost predicate Distinct<T>(s: seq<T>) {
    forall j, k :: 0 <= j < k < |s| ==> s[j] != s[k]
  }

  /** An element at two positions is counted at least twice. */
  lemma CountedTwice<T>(s: seq<T>, j: int, k: int)
    requires 0 <= j < k < |s| && s[j] == s[k]
    ensures multiset(s)[s[j]] >= 2
  {
    assert s == s[..k] + [s[k]] + s[k + 1..];
    assert s[..k][j] == s[j];
    assert multiset(s) == multiset(s[..k]) + multiset{s[k]} + multiset(s[k + 1..]);
  }

  /** An element of a sequence without repeats is counted once. */
  lemma {:induction false} DistinctCountedOnce<T>(s: seq<T>, x: T)
    requires Distinct(s)
    ensures multiset(s)[x] <= 1
  {
    if s != [] {
      assert s == [s[0]] + s[1..];
      DistinctCountedOnce(s[1..], x);
      assert forall i :: 0 <= i < |s[1..]| ==> s[1..][i] == s[i + 1] != s[0];
    }
  }

  /** Whatever draws only from a sequence without repeats has none either. */
  lemma SubmultisetDistinct<T>(a: seq<T>, b: seq<T>)
    requires multiset(a) <= multiset(b) && Distinct(b)
    ensures Distinct(a)
  {
    forall j, k | 0 <= j < k < |a|
      ensures a[j] != a[k]
    {
      if a[j] == a[k] {
        CountedTwice(a, j, k);
        DistinctCountedOnce(b, a[j]);
      }
    }
  }

  /** `LIMIT n` in SQLite: a negative limit means no limit. */
  function SqlLimit<T>(s: seq<T>, limit: int): (r: seq<T>)
    ensures |r| == if limit < 0 || |s| <= limit then |s| else limit
    ensures r == s[..|r|]
  {
    if limit < 0 || |s| <= limit then s else s[..limit]
  }

  /** A limit keeps only elements of its input, and all of them when it cuts nothing. */
  lemma SqlLimitMembers<T>(s: seq<T>, limit: int)
    ensures forall x :: x in SqlLimit(s, limit) ==> x in s
    ensures multiset(SqlLimit(s, limit)) <= multiset(s)
    ensures limit < 0 || |s| <= limit ==> SqlLimit(s, limit) == s
  {
    var r := SqlLimit(s, limit);
    assert s == r + s[|r|..];
    forall x | x in r ensures x in s {
      var k :| 0 <= k < |r| && r[k] == x;
      assert s[k] == x;
    }
  }

  /** Python's `s[:k]`: a negative k drops |k| elements from the end. */
  function PyTake<T>(s: seq<T>, k: int): (r: seq<T>)
    ensures |r| == if k >= 0 then (if k <= |s| then k else |s|)
                   else (if |s| + k >= 0 then |s| + k else 0)
    ensures r == s[..|r|]
  {
    if k >= 0 then (if k <= |s| then s[..k] else s)
    else if |s| + k >= 0 then s[..|s| + k] else []
  }

  /** `random.shuffle`: the random draws are given as `picks`; whatever they
      are, the result is a permutation of `s`. */
  function Shuffle<T>(s: seq<T>, picks: seq<nat>): (r: seq<T>)
    ensures multiset(r) == multiset(s)
    ensures |r| == |s|
    decreases |s|
  {
    if s == [] then []
    else
      var j := (if picks == [] then 0 else picks[0]) % |s|;
      var rest := s[..j] + s[j + 1..];
      assert s == s[..j] + [s[j]] + s[j + 1..];
      assert multiset(s) == multiset(s[..j]) + multiset{s[j]} + multiset(s[j + 1..]);
      assert multiset(rest) == multiset(s[..j]) + multiset(s[j + 1..]);
      var shuffled := Shuffle(rest, if picks == [] then [] else picks[1..]);
      assert multiset([s[j]] + shuffled) == multiset{s[j]} + multiset(shuffled);
      [s[j]] + shuffled
  }

  /** A list comprehension `[f(x) for x in s]`. */
  function MapSeq<T, U>(s: seq<T>, f: T -> U): (r: seq<U>)
    ensures |r| == |s|
    ensures forall k :: 0 <= k < |s| ==> r[k] == f(s[k])
  {
    if s == [] then [] else [f(s[0])] + MapSeq(s[1..], f)
  }

  /** The first index at which x occurs in s. */
  function PositionOf<T(==)>(s: seq<T>, x: T): (k: nat)
    requires x in s
    ensures k < |s| && s[k] == x
  {
    if s[0] == x then 0 else 1 + PositionOf(s[1..], x)
  }

  /** Number of elements that satisfy p (a `COUNT(*) ... WHERE`). */
  function Count<T>(s: seq<T>, p: T -> bool): nat {
    |Filter(s, p)|
  }
}
