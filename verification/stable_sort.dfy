/**
 * `Array.prototype.sort` with a comparator, as JavaScript specifies it since
 * ES2019: a stable sort. The comparators of the program order by an integer
 * key descending and then by a real key ascending; `Rank` carries both keys.
 */
module StableSort {
  import opened Seqs

  datatype Rank = Rank(major: int, minor: real)

  /** `a` sorts strictly before `b`: the comparator is negative. */
  predicate Before(a: Rank, b: Rank) {
    a.major > b.major || (a.major == b.major && a.minor < b.minor)
  }

  /** No element is strictly before an earlier one. */
  predicate Ordered<T>(s: seq<T>, rank: T -> Rank) {
    forall i, j :: 0 <= i < j < |s| ==> !Before(rank(s[j]), rank(s[i]))
  }

  /** The elements of s of rank k, in their order in s. */
  function WithRank<T>(s: seq<T>, rank: T -> Rank, k: Rank): (r: seq<T>)
    ensures |r| <= |s|
    decreases |s|
  {
    if |s| == 0 then []
    else (if rank(s[0]) == k then [s[0]] else []) + WithRank(s[1..], rank, k)
  }

  /** Inserts x after every element that does not sort after it. */
  function Insert<T>(x: T, s: seq<T>, rank: T -> Rank): (r: seq<T>)
    ensures |r| == |s| + 1
    ensures multiset(r) == multiset(s) + multiset{x}
    decreases |s|
  {
    if |s| == 0 then [x]
    else if Before(rank(x), rank(s[0])) then [x] + s
    else
      var rest := Insert(x, s[1..], rank);
      assert s == [s[0]] + s[1..];
      [s[0]] + rest
  }

  /** The sorted sequence: insertion sort, taking the input from left to right. */
  function Sort<T>(s: seq<T>, rank: T -> Rank): (r: seq<T>)
    ensures |r| == |s|
    ensures multiset(r) == multiset(s)
    decreases |s|
  {
    if |s| == 0 then []
    else
      var init := s[..|s| - 1];
      assert s == init + [s[|s| - 1]];
      Insert(s[|s| - 1], Sort(init, rank), rank)
  }

  lemma {:induction false} InsertOrdered<T>(x: T, s: seq<T>, rank: T -> Rank)
    requires Ordered(s, rank)
    ensures Ordered(Insert(x, s, rank), rank)
    decreases |s|
  {
    if |s| > 0 && !Before(rank(x), rank(s[0])) {
      var rest := Insert(x, s[1..], rank);
      OrderedTail(s, rank);
      InsertOrdered(x, s[1..], rank);
      InsertBehind(x, s, rank);
      forall i | 0 <= i < |rest|
        ensures !Before(rank(rest[i]), rank(s[0]))
      {
        var e := rest[i];
        assert e in multiset(rest);
        assert e in multiset(s[1..]) + multiset{x};
        if e in multiset(s[1..]) {
          var j :| 0 <= j < |s[1..]| && s[1..][j] == e;
          assert s[j + 1] == e;
        }
      }
      OrderedCons(s[0], rest, rank);
    }
  }

  /** A head that no later element sorts before extends an ordered sequence. */
  lemma {:induction false} OrderedCons<T>(h: T, s: seq<T>, rank: T -> Rank)
    requires Ordered(s, rank)
    requires forall i :: 0 <= i < |s| ==> !Before(rank(s[i]), rank(h))
    ensures Ordered([h] + s, rank)
  {
    var r := [h] + s;
    forall i, j | 0 <= i < j < |r|
      ensures !Before(rank(r[j]), rank(r[i]))
    {
      assert r[j] == s[j - 1];
      if i > 0 {
        assert r[i] == s[i - 1];
      }
    }
  }

  /** The result of Sort is ordered. */
  lemma {:induction false} SortOrdered<T>(s: seq<T>, rank: T -> Rank)
    ensures Ordered(Sort(s, rank), rank)
    decreases |s|
  {
    if |s| > 0 {
      SortOrdered(s[..|s| - 1], rank);
      InsertOrdered(s[|s| - 1], Sort(s[..|s| - 1], rank), rank);
    }
  }

  lemma {:induction false} WithRankConcat<T>(a: seq<T>, b: seq<T>, rank: T -> Rank, k: Rank)
    ensures WithRank(a + b, rank, k) == WithRank(a, rank, k) + WithRank(b, rank, k)
    decreases |a|
  {
    if |a| == 0 {
      assert a + b == b;
    } else {
      assert (a + b)[1..] == a[1..] + b;
      WithRankConcat(a[1..], b, rank, k);
    }
  }

  lemma {:induction false} WithRankNone<T>(s: seq<T>, rank: T -> Rank, k: Rank)
    requires forall i :: 0 <= i < |s| ==> rank(s[i]) != k
    ensures WithRank(s, rank, k) == []
    decreases |s|
  {
    if |s| > 0 {
      WithRankNone(s[1..], rank, k);
    }
  }

  lemma {:induction false} WithRankCons<T>(e: T, s: seq<T>, rank: T -> Rank, k: Rank)
    ensures WithRank([e] + s, rank, k) == (if rank(e) == k then [e] else []) + WithRank(s, rank, k)
  {
    assert ([e] + s)[1..] == s;
  }

  /** Inserting into an ordered sequence puts x after the elements of its own rank. */
  lemma {:induction false} InsertWithRank<T>(x: T, s: seq<T>, rank: T -> Rank, k: Rank)
    requires Ordered(s, rank)
    ensures WithRank(Insert(x, s, rank), rank, k)
         == WithRank(s, rank, k) + (if rank(x) == k then [x] else [])
    decreases |s|
  {
    if |s| == 0 {
      WithRankCons(x, [], rank, k);
      assert [x] + [] == [x];
    } else if Before(rank(x), rank(s[0])) {
      InsertFrontWithRank(x, s, rank, k);
    } else {
      OrderedTail(s, rank);
      InsertWithRank(x, s[1..], rank, k);
      InsertBehindWithRank(x, s, rank, k);
    }
  }

  /** x sorts before the head: no element of x's rank is skipped. */
  lemma {:induction false} InsertFrontWithRank<T>(x: T, s: seq<T>, rank: T -> Rank, k: Rank)
    requires Ordered(s, rank) && |s| > 0 && Before(rank(x), rank(s[0]))
    ensures WithRank(Insert(x, s, rank), rank, k)
         == WithRank(s, rank, k) + (if rank(x) == k then [x] else [])
  {
    assert Insert(x, s, rank) == [x] + s;
    WithRankCons(x, s, rank, k);
    if rank(x) == k {
      forall i | 0 <= i < |s|
        ensures rank(s[i]) != k
      {
        if i > 0 {
          assert !Before(rank(s[i]), rank(s[0]));
        }
      }
      WithRankNone(s, rank, k);
    }
  }

  /** The tail of an ordered sequence is ordered. */
  lemma {:induction false} OrderedTail<T>(s: seq<T>, rank: T -> Rank)
    requires Ordered(s, rank) && |s| > 0
    ensures Ordered(s[1..], rank)
  {
    forall i, j | 0 <= i < j < |s[1..]|
      ensures !Before(rank(s[1..][j]), rank(s[1..][i]))
    {
      assert s[1..][j] == s[j + 1] && s[1..][i] == s[i + 1];
    }
  }

  /** x goes behind the head: the head keeps its place in front. */
  lemma {:induction false} InsertBehindWithRank<T>(x: T, s: seq<T>, rank: T -> Rank, k: Rank)
    requires |s| > 0 && !Before(rank(x), rank(s[0]))
    requires WithRank(Insert(x, s[1..], rank), rank, k)
          == WithRank(s[1..], rank, k) + (if rank(x) == k then [x] else [])
    ensures WithRank(Insert(x, s, rank), rank, k)
         == WithRank(s, rank, k) + (if rank(x) == k then [x] else [])
  {
    var tail: seq<T> := if rank(x) == k then [x] else [];
    var head: seq<T> := if rank(s[0]) == k then [s[0]] else [];
    var rest := Insert(x, s[1..], rank);
    InsertBehind(x, s, rank);
    WithRankCons(s[0], rest, rank, k);
    WithRankCons(s[0], s[1..], rank, k);
    assert [s[0]] + s[1..] == s;
    AppendAssoc(head, WithRank(s[1..], rank, k), tail);
  }

  /** Insert skips a head that x does not sort before. */
  lemma {:induction false} InsertBehind<T>(x: T, s: seq<T>, rank: T -> Rank)
    requires |s| > 0 && !Before(rank(x), rank(s[0]))
    ensures Insert(x, s, rank) == [s[0]] + Insert(x, s[1..], rank)
  {
  }


  lemma {:induction false} SplitLast<T>(s: seq<T>)
    requires |s| > 0
    ensures s == s[..|s| - 1] + [s[|s| - 1]]
  {
  }

  /** Sort is stable: the elements of every rank keep their input order. */
  lemma {:induction false} SortStable<T>(s: seq<T>, rank: T -> Rank, k: Rank)
    ensures WithRank(Sort(s, rank), rank, k) == WithRank(s, rank, k)
    decreases |s|
  {
    if |s| > 0 {
      var init := s[..|s| - 1];
      var last := s[|s| - 1];
      var tail: seq<T> := if rank(last) == k then [last] else [];
      assert WithRank(s, rank, k) == WithRank(init, rank, k) + tail by {
        SplitLast(s);
        WithRankConcat(init, [last], rank, k);
        WithRankCons(last, [], rank, k);
        assert [last] + [] == [last];
        assert tail + [] == tail;
      }
      assert Sort(s, rank) == Insert(last, Sort(init, rank), rank);
      SortStable(init, rank, k);
      SortOrdered(init, rank);
      InsertWithRank(last, Sort(init, rank), rank, k);
    }
  }
}
