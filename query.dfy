/** The three query operations the tools ask of the listings table, written
    over an in-memory sequence of rows: keep the rows a filter accepts, order
    them by a key with the largest first, and cut the result to a limit. */
module Query {

  /** The rows of s that p accepts, in table order. */
  function Keep<T>(s: seq<T>, p: T -> bool): (r: seq<T>)
    ensures |r| <= |s|
    ensures forall i :: 0 <= i < |r| ==> r[i] in s && p(r[i])
    ensures forall i :: 0 <= i < |s| && p(s[i]) ==> s[i] in r
  {
    if s == [] then [] else (if p(s[0]) then [s[0]] else []) + Keep(s[1..], p)
  }

  /** A row is kept exactly when it is in s and p accepts it. */
  lemma KeepMember<T>(s: seq<T>, p: T -> bool, x: T)
    ensures x in Keep(s, p) <==> x in s && p(x)
  {
    if x in s && p(x) {
      var i :| 0 <= i < |s| && s[i] == x;
    }
  }

  /** Filtering a concatenation filters each part and keeps them in order,
      so the kept rows stay in table order. */
  lemma {:induction false} KeepConcat<T>(s: seq<T>, t: seq<T>, p: T -> bool)
    ensures Keep(s + t, p) == Keep(s, p) + Keep(t, p)
    decreases |s|
  {
    if s == [] {
      assert s + t == t;
    } else {
      var head: seq<T> := if p(s[0]) then [s[0]] else [];
      KeepConcat(s[1..], t, p);
      ConsConcat(s, t);
      calc {
        Keep(s + t, p);
        head + Keep(s[1..] + t, p);
        head + (Keep(s[1..], p) + Keep(t, p));
        (head + Keep(s[1..], p)) + Keep(t, p);
        Keep(s, p) + Keep(t, p);
      }
    }
  }

  lemma ConsConcat<T>(s: seq<T>, t: seq<T>)
    requires s != []
    ensures s + t != [] && (s + t)[0] == s[0] && (s + t)[1..] == s[1..] + t
  {
  }

  /** A filter every row passes keeps them all. */
  lemma {:induction false} KeepAll<T>(s: seq<T>, p: T -> bool)
    requires forall x :: x in s ==> p(x)
    ensures Keep(s, p) == s
    decreases |s|
  {
    if s != [] {
      assert s[0] in s;
      KeepAll(s[1..], p);
    }
  }

  /** Filtering twice is filtering once by both conditions. */
  lemma {:induction false} KeepBoth<T>(s: seq<T>, p: T -> bool, q: T -> bool, both: T -> bool)
    requires forall x :: x in s ==> both(x) == (p(x) && q(x))
    ensures Keep(Keep(s, p), q) == Keep(s, both)
    decreases |s|
  {
    if s != [] {
      KeepBoth(s[1..], p, q, both);
      assert s[0] in s;
      if p(s[0]) {
        var kept := [s[0]] + Keep(s[1..], p);
        assert Keep(s, p) == kept;
        assert kept[0] == s[0] && kept[1..] == Keep(s[1..], p);
        assert Keep(kept, q) == (if q(s[0]) then [s[0]] else []) + Keep(Keep(s[1..], p), q);
      } else {
        assert Keep(s, p) == Keep(s[1..], p);
      }
    }
  }

  /** Two filters that agree on every row of s keep the same rows. */
  lemma {:induction false} KeepSame<T>(s: seq<T>, p: T -> bool, q: T -> bool)
    requires forall x :: x in s ==> p(x) == q(x)
    ensures Keep(s, p) == Keep(s, q)
    decreases |s|
  {
    if s != [] {
      KeepSame(s[1..], p, q);
    }
  }

  predicate Descending<T>(s: seq<T>, key: T -> int)
  {
    forall i, j :: 0 <= i < j < |s| ==> key(s[i]) >= key(s[j])
  }

  /** x placed before the first row whose key is not larger than its own. */
  function InsertDescending<T>(x: T, s: seq<T>, key: T -> int): (r: seq<T>)
    ensures multiset(r) == multiset(s) + multiset{x}
    ensures |r| == |s| + 1
  {
    if s == [] || key(x) >= key(s[0]) then [x] + s
    else
      assert s == [s[0]] + s[1..];
      [s[0]] + InsertDescending(x, s[1..], key)
  }

  lemma {:induction false} InsertKeepsDescending<T>(x: T, s: seq<T>, key: T -> int)
    requires Descending(s, key)
    ensures Descending(InsertDescending(x, s, key), key)
    decreases |s|
  {
    if s != [] && key(x) < key(s[0]) {
      InsertKeepsDescending(x, s[1..], key);
      var r := InsertDescending(x, s[1..], key);
      forall k | 0 <= k < |r|
        ensures key(s[0]) >= key(r[k])
      {
        assert r[k] in multiset(r);
        if r[k] != x {
          assert r[k] in multiset(s[1..]);
          var m :| 0 <= m < |s| - 1 && s[m + 1] == r[k];
        }
      }
    }
  }

  /** `ORDER BY key DESC`, ties kept in table order. */
  function SortDescending<T>(s: seq<T>, key: T -> int): (r: seq<T>)
    ensures multiset(r) == multiset(s)
    ensures |r| == |s|
  {
    if s == [] then []
    else
      assert s == [s[0]] + s[1..];
      InsertDescending(s[0], SortDescending(s[1..], key), key)
  }

  lemma {:induction false} SortedDescending<T>(s: seq<T>, key: T -> int)
    ensures Descending(SortDescending(s, key), key)
    decreases |s|
  {
    if s != [] {
      SortedDescending(s[1..], key);
      InsertKeepsDescending(s[0], SortDescending(s[1..], key), key);
    }
  }

  /** `LIMIT n`: the first n rows, or all of them when there are fewer. */
  function Take<T>(s: seq<T>, n: nat): (r: seq<T>)
    ensures r <= s
    ensures |r| == if n < |s| then n else |s|
  {
    if n < |s| then s[..n] else s
  }

  /** A row of a descending sequence that the limit cuts off is no larger
      than any row kept, and the limit was reached. */
  lemma TakeKeepsLargest<T>(s: seq<T>, n: nat, key: T -> int, x: T)
    requires Descending(s, key) && x in s && x !in Take(s, n)
    ensures |Take(s, n)| == n
    ensures forall r :: r in Take(s, n) ==> key(r) >= key(x)
  {
    var k :| 0 <= k < |s| && s[k] == x;
    assert n < |s| && k >= n;
    forall r | r in Take(s, n)
      ensures key(r) >= key(x)
    {
      var j :| 0 <= j < n && s[..n][j] == r;
    }
  }
}
