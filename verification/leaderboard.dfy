/**
 * The leaderboard ordering: a copy of the points sorted by descending count with
 * a stable sort, so points with equal counts keep their collection order.
 */
module Leaderboard {
  import opened Points

  /** Every point is ranked at least as high as every point after it. */
  predicate NonIncreasing(s: seq<Point>) {
    forall i, j :: 0 <= i < j < |s| ==> s[i].count >= s[j].count
  }

  /** The points of `s` with count `c`, in their order in `s`. */
  function WithCount(s: seq<Point>, c: int): seq<Point> {
    if s == [] then [] else (if s[0].count == c then [s[0]] else []) + WithCount(s[1..], c)
  }

  /** Places `x` before the first point whose count does not exceed its own. */
  function InsertByCount(x: Point, s: seq<Point>): seq<Point> {
    if s == [] || x.count >= s[0].count then [x] + s
    else [s[0]] + InsertByCount(x, s[1..])
  }

  /** `[...points].sort((a, b) => b.count - a.count)`, as a stable insertion sort. */
  function SortByCountDesc(ps: seq<Point>): seq<Point> {
    if ps == [] then [] else InsertByCount(ps[0], SortByCountDesc(ps[1..]))
  }

  lemma {:induction false} InsertIsPermutation(x: Point, s: seq<Point>)
    ensures multiset(InsertByCount(x, s)) == multiset(s) + multiset{x}
  {
    if s != [] && x.count < s[0].count {
      InsertIsPermutation(x, s[1..]);
      assert s == [s[0]] + s[1..];
    }
  }

  lemma {:induction false} InsertKeepsOrder(x: Point, s: seq<Point>)
    requires NonIncreasing(s)
    ensures NonIncreasing(InsertByCount(x, s))
  {
    if s != [] && x.count < s[0].count {
      var rest := InsertByCount(x, s[1..]);
      InsertKeepsOrder(x, s[1..]);
      InsertIsPermutation(x, s[1..]);
      forall j | 0 <= j < |rest| ensures s[0].count >= rest[j].count {
        assert rest[j] in multiset(rest);
        assert rest[j] == x || rest[j] in multiset(s[1..]);
        if rest[j] != x {
          var m :| 0 <= m < |s[1..]| && s[1..][m] == rest[j];
          assert s[m + 1] == rest[j];
        }
      }
    }
  }

  /** Inserting `x` adds it in front of the points of its own count and leaves the others' order alone. */
  lemma {:induction false} InsertWithCount(x: Point, s: seq<Point>, c: int)
    ensures WithCount(InsertByCount(x, s), c) == (if x.count == c then [x] else []) + WithCount(s, c)
  {
    var front := if x.count == c then [x] else [];
    if s == [] || x.count >= s[0].count {
      assert ([x] + s)[1..] == s;
    } else {
      var rest := InsertByCount(x, s[1..]);
      var head := if s[0].count == c then [s[0]] else [];
      assert ([s[0]] + rest)[1..] == rest;
      assert WithCount(InsertByCount(x, s), c) == head + WithCount(rest, c);
      InsertWithCount(x, s[1..], c);
      assert WithCount(rest, c) == front + WithCount(s[1..], c);
      // x ranks below s[0], so at most one of them has count c
      assert front == [] || head == [];
      assert WithCount(s, c) == head + WithCount(s[1..], c);
    }
  }

  /** The sorted list is a permutation of the points. */
  lemma {:induction false} SortIsPermutation(ps: seq<Point>)
    ensures |SortByCountDesc(ps)| == |ps|
    ensures multiset(SortByCountDesc(ps)) == multiset(ps)
  {
    if ps != [] {
      SortIsPermutation(ps[1..]);
      InsertIsPermutation(ps[0], SortByCountDesc(ps[1..]));
      assert ps == [ps[0]] + ps[1..];
    }
    assert |SortByCountDesc(ps)| == |multiset(SortByCountDesc(ps))|;
  }

  /** The sorted list is non-increasing in count. */
  lemma {:induction false} SortIsOrdered(ps: seq<Point>)
    ensures NonIncreasing(SortByCountDesc(ps))
  {
    if ps != [] {
      SortIsOrdered(ps[1..]);
      InsertKeepsOrder(ps[0], SortByCountDesc(ps[1..]));
    }
  }

  /** The sort is stable: for every count, the points with that count keep their relative order. */
  lemma {:induction false} SortIsStable(ps: seq<Point>, c: int)
    ensures WithCount(SortByCountDesc(ps), c) == WithCount(ps, c)
  {
    if ps != [] {
      SortIsStable(ps[1..], c);
      InsertWithCount(ps[0], SortByCountDesc(ps[1..]), c);
    }
  }

  lemma {:induction false} WithCountHasMember(s: seq<Point>, i: int)
    requires 0 <= i < |s|
    ensures WithCount(s, s[i].count) != []
  {
    if i > 0 {
      WithCountHasMember(s[1..], i - 1);
    }
  }

  /** In a non-increasing list no count exceeds the first point's. */
  lemma {:induction false} WithCountBounded(s: seq<Point>, c: int)
    requires NonIncreasing(s) && WithCount(s, c) != []
    ensures s != [] && c <= s[0].count
  {
    if s != [] && s[0].count != c {
      WithCountBounded(s[1..], c);
    }
  }

  /**
   * A non-increasing list is determined by the order of the points within each count:
   * with the two lemmas above, the sort's output is the only stable descending order.
   */
  lemma {:induction false} StableOrderUnique(t: seq<Point>, u: seq<Point>)
    requires NonIncreasing(t) && NonIncreasing(u)
    requires forall c :: WithCount(t, c) == WithCount(u, c)
    ensures t == u
    decreases |t|
  {
    if t == [] {
      if u != [] {
        WithCountHasMember(u, 0);
      }
    } else if u == [] {
      WithCountHasMember(t, 0);
    } else {
      var a := t[0].count;
      WithCountHasMember(t, 0);
      WithCountHasMember(u, 0);
      WithCountBounded(u, a);
      WithCountBounded(t, u[0].count);
      assert WithCount(t, a) == [t[0]] + WithCount(t[1..], a);
      assert WithCount(u, a) == [u[0]] + WithCount(u[1..], a);
      assert WithCount(t, a) == WithCount(u, a);
      assert t[0] == WithCount(t, a)[0] == u[0];
      forall c ensures WithCount(t[1..], c) == WithCount(u[1..], c) {
        assert WithCount(t, c) == WithCount(u, c);
        if c == a {
          assert WithCount(t[1..], c) == WithCount(t, c)[1..];
          assert WithCount(u[1..], c) == WithCount(u, c)[1..];
        } else {
          assert WithCount(t[1..], c) == WithCount(t, c);
          assert WithCount(u[1..], c) == WithCount(u, c);
        }
      }
      StableOrderUnique(t[1..], u[1..]);
      assert t == [t[0]] + t[1..] && u == [u[0]] + u[1..];
    }
  }

  /** The sort agrees with every stable descending ordering of the same points. */
  lemma SortIsTheStableOrder(ps: seq<Point>, t: seq<Point>)
    requires NonIncreasing(t)
    requires forall c :: WithCount(t, c) == WithCount(ps, c)
    ensures t == SortByCountDesc(ps)
  {
    SortIsOrdered(ps);
    forall c ensures WithCount(t, c) == WithCount(SortByCountDesc(ps), c) {
      SortIsStable(ps, c);
    }
    StableOrderUnique(t, SortByCountDesc(ps));
  }

  /** Points A, B, C with counts 3, 1, 5 are ranked C, A, B. */
  lemma RankingExample(a: Point, b: Point, c: Point)
    requires a.count == 3 && b.count == 1 && c.count == 5
    ensures SortByCountDesc([a, b, c]) == [c, a, b]
  {
    assert [a, b, c][1..] == [b, c] && [b, c][1..] == [c] && [c][1..] == [];
    assert SortByCountDesc([c]) == [c];
    assert InsertByCount(b, [c]) == [c] + InsertByCount(b, []) == [c, b];
    assert SortByCountDesc([b, c]) == [c, b];
    assert InsertByCount(a, [c, b]) == [c] + InsertByCount(a, [b]) == [c, a, b];
  }
}
