/** The relational pieces the SQL queries are built from: `WHERE` (Filter),
    `COUNT(*)` (Count), `ORDER BY` (SortBy, a stable insertion sort under a
    total preorder), `LIMIT` (Take), and the `BINARY` collation on text
    (LexLe). */
module Seqs {

  /** Rows of `s` satisfying `p`, in their original order. */
  function Filter<T(!new)>(s: seq<T>, p: T -> bool): (r: seq<T>)
    ensures |r| <= |s|
    ensures forall x :: x in r <==> x in s && p(x)
  {
    if s == [] then []
    else
      var init, last := s[..|s| - 1], s[|s| - 1];
      assert s == init + [last];
      Filter(init, p) + (if p(last) then [last] else [])
  }

  /** `WHERE p` keeps every qualifying row as often as the table holds it,
      and no other row. */
  lemma {:induction false} FilterMultiset<T(!new)>(s: seq<T>, p: T -> bool)
    ensures forall x :: multiset(Filter(s, p))[x] == if p(x) then multiset(s)[x] else 0
  {
    if s != [] {
      var init, last := s[..|s| - 1], s[|s| - 1];
      assert s == init + [last];
      FilterMultiset(init, p);
    }
  }

  /** `SELECT COUNT(*) ... WHERE p`. */
  function Count<T(!new)>(s: seq<T>, p: T -> bool): nat {
    |Filter(s, p)|
  }

  /** Extending the table by one row adds one to the count exactly when
      that row qualifies. */
  lemma CountSnoc<T(!new)>(s: seq<T>, x: T, p: T -> bool)
    ensures Count(s + [x], p) == Count(s, p) + (if p(x) then 1 else 0)
  {
    assert (s + [x])[..|s|] == s;
  }

  /** Prepending a row adds one to the count exactly when that row qualifies. */
  lemma CountCons<T(!new)>(x: T, s: seq<T>, p: T -> bool)
    ensures Count([x] + s, p) == (if p(x) then 1 else 0) + Count(s, p)
  {
    CountAppend([x], s, p);
    assert [x][..0] == [];
  }

  /** Counting, among the rows `q` keeps, those meeting `m` is counting the
      rows meeting both. */
  lemma {:induction false} CountFilter<T(!new)>(s: seq<T>, q: T -> bool, m: T -> bool, both: T -> bool)
    requires forall x :: both(x) == (q(x) && m(x))
    ensures Count(Filter(s, q), m) == Count(s, both)
  {
    if s != [] {
      var init, last := s[..|s| - 1], s[|s| - 1];
      assert s == init + [last];
      CountFilter(init, q, m, both);
      CountSnoc(init, last, both);
      assert both(last) == (q(last) && m(last));
      if q(last) {
        assert Filter(s, q) == Filter(init, q) + [last];
        CountSnoc(Filter(init, q), last, m);
      } else {
        assert Filter(s, q) == Filter(init, q);
      }
    }
  }

  /** A weaker condition never counts fewer rows. */
  lemma {:induction false} CountMonotone<T(!new)>(s: seq<T>, p: T -> bool, q: T -> bool)
    requires forall x :: x in s && p(x) ==> q(x)
    ensures Count(s, p) <= Count(s, q)
  {
    if s != [] {
      var init := s[..|s| - 1];
      assert s == init + [s[|s| - 1]];
      CountMonotone(init, p, q);
      CountSnoc(init, s[|s| - 1], p);
      CountSnoc(init, s[|s| - 1], q);
    }
  }

  /** Counting over two tables put end to end adds up. */
  lemma {:induction false} CountAppend<T(!new)>(s: seq<T>, t: seq<T>, p: T -> bool)
    ensures Count(s + t, p) == Count(s, p) + Count(t, p)
  {
    if t == [] {
      assert s + t == s;
    } else {
      var init, last := t[..|t| - 1], t[|t| - 1];
      assert t == init + [last];
      assert s + t == (s + init) + [last];
      CountAppend(s, init, p);
      CountSnoc(s + init, last, p);
      CountSnoc(init, last, p);
    }
  }

  /** Taking one row out of a table removes its contribution to the count. */
  lemma CountRemove<T(!new)>(b: seq<T>, k: int, p: T -> bool)
    requires 0 <= k < |b|
    ensures Count(b, p) == Count(b[..k] + b[k + 1..], p) + (if p(b[k]) then 1 else 0)
  {
    var before, after := b[..k], b[k + 1..];
    assert b == before + [b[k]] + after;
    CountAppend(before + [b[k]], after, p);
    CountSnoc(before, b[k], p);
    CountAppend(before, after, p);
  }

  /** The count does not depend on the order of the rows. */
  lemma {:induction false} CountPermutation<T(!new)>(a: seq<T>, b: seq<T>, p: T -> bool)
    requires multiset(a) == multiset(b)
    ensures Count(a, p) == Count(b, p)
  {
    if a == [] {
      assert |multiset(b)| == 0;
    } else {
      var init, x := a[..|a| - 1], a[|a| - 1];
      assert a == init + [x];
      assert x in multiset(b);
      var k :| 0 <= k < |b| && b[k] == x;
      var rest := b[..k] + b[k + 1..];
      assert b == b[..k] + [x] + b[k + 1..];
      assert multiset(init) == multiset(a) - multiset{x};
      assert multiset(rest) == multiset(b) - multiset{x};
      CountPermutation(init, rest, p);
      CountSnoc(init, x, p);
      CountRemove(b, k, p);
    }
  }

  /** `le` orders any two values and is transitive: what `ORDER BY` needs. */
  ghost predicate TotalPreorder<T(!new)>(le: (T, T) -> bool) {
    && (forall a, b :: le(a, b) || le(b, a))
    && (forall a, b, c :: le(a, b) && le(b, c) ==> le(a, c))
  }

  /** Every earlier row is `le` every later one. */
  predicate SortedBy<T>(s: seq<T>, le: (T, T) -> bool) {
    forall i, j :: 0 <= i < j < |s| ==> le(s[i], s[j])
  }

  /** Places `x` before the first row it is `le`. */
  function Insert<T>(x: T, s: seq<T>, le: (T, T) -> bool): (r: seq<T>)
    ensures multiset(r) == multiset(s) + multiset{x}
    ensures |r| == |s| + 1
  {
    if s == [] then [x]
    else if le(x, s[0]) then [x] + s
    else
      assert s == [s[0]] + s[1..];
      [s[0]] + Insert(x, s[1..], le)
  }

  /** `ORDER BY le`: a permutation of `s`; rows that `le` ties keep their
      table order. */
  function SortBy<T(!new)>(s: seq<T>, le: (T, T) -> bool): (r: seq<T>)
    ensures multiset(r) == multiset(s)
    ensures |r| == |s|
    ensures forall x :: x in r <==> x in s
  {
    if s == [] then []
    else
      assert s == [s[0]] + s[1..];
      var r := Insert(s[0], SortBy(s[1..], le), le);
      assert forall x :: x in r <==> x in multiset(r);
      r
  }

  lemma {:induction false} InsertSorted<T(!new)>(x: T, s: seq<T>, le: (T, T) -> bool)
    requires TotalPreorder(le) && SortedBy(s, le)
    ensures SortedBy(Insert(x, s, le), le)
  {
    if s != [] && !le(x, s[0]) {
      var tail := Insert(x, s[1..], le);
      InsertSorted(x, s[1..], le);
      forall k | 0 <= k < |tail| ensures le(s[0], tail[k]) {
        assert tail[k] in multiset(tail);
        if tail[k] != x {
          assert tail[k] in multiset(s[1..]);
          var m :| 0 <= m < |s[1..]| && s[1..][m] == tail[k];
          assert s[m + 1] == tail[k];
        }
      }
    }
  }

  /** The result of `SortBy` is in `le` order. */
  lemma {:induction false} SortBySorted<T(!new)>(s: seq<T>, le: (T, T) -> bool)
    requires TotalPreorder(le)
    ensures SortedBy(SortBy(s, le), le)
  {
    if s != [] {
      SortBySorted(s[1..], le);
      InsertSorted(s[0], SortBy(s[1..], le), le);
    }
  }

  /** `LIMIT n`: the first `n` rows; SQLite reads a negative limit as no limit. */
  function Take<T>(s: seq<T>, n: int): (r: seq<T>)
    ensures n < 0 ==> r == s
    ensures 0 <= n ==> |r| == if n < |s| then n else |s|
    ensures r <= s
  {
    if n < 0 || n >= |s| then s else s[..n]
  }

  /** The first rows of a sorted table are sorted, come first, and are
      `le` every row left out. */
  lemma TakeSorted<T>(s: seq<T>, n: int, le: (T, T) -> bool)
    requires SortedBy(s, le)
    ensures Take(s, n) == s[..|Take(s, n)|]
    ensures SortedBy(Take(s, n), le)
    ensures forall i, j :: 0 <= i < |Take(s, n)| <= j < |s| ==> le(Take(s, n)[i], s[j])
  {
    var r := Take(s, n);
    assert forall i :: 0 <= i < |r| ==> r[i] == s[i];
  }

  /** SQLite's `BINARY` collation: code-point-wise lexicographic order, a
      proper prefix sorting first. */
  predicate LexLe(a: string, b: string) {
    if a == [] then true
    else if b == [] then false
    else if a[0] != b[0] then a[0] < b[0]
    else LexLe(a[1..], b[1..])
  }

  lemma {:induction false} LexTotal(a: string, b: string)
    ensures LexLe(a, b) || LexLe(b, a)
  {
    if a != [] && b != [] && a[0] == b[0] {
      LexTotal(a[1..], b[1..]);
    }
  }

  lemma {:induction false} LexAntisymmetric(a: string, b: string)
    requires LexLe(a, b) && LexLe(b, a)
    ensures a == b
  {
    if a != [] && b != [] {
      LexAntisymmetric(a[1..], b[1..]);
      assert a == [a[0]] + a[1..] && b == [b[0]] + b[1..];
    }
  }

  lemma {:induction false} LexTransitive(a: string, b: string, c: string)
    requires LexLe(a, b) && LexLe(b, c)
    ensures LexLe(a, c)
  {
    if a != [] && b != [] && c != [] && a[0] == b[0] && b[0] == c[0] {
      LexTransitive(a[1..], b[1..], c[1..]);
    }
  }
}
