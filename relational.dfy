/**
 * The fragment of SQL that the analytics queries are written in, restated over
 * sequences: NULL as Option, GROUP BY as Keys/Group, SUM and COUNT as SumOf,
 * COUNT(DISTINCT ..) as the size of an Image, and ORDER BY .. LIMIT as TopN.
 *
 * Key functions, weights and orders are passed as NAMED functions by the
 * metric modules, so that the same term denotes the same function everywhere.
 */
module Relational {

  /** SQL NULL. */
  datatype Option<+T> = None | Some(value: T)

  /** COALESCE(x, d). */
  function Coalesce<T>(x: Option<T>, d: T): (r: T)
    ensures x.Some? ==> r == x.value
    ensures x.None? ==> r == d
  {
    match x
    case Some(v) => v
    case None => d
  }

  /** Python's `float(x) if x else 0` and `x or 0`: NULL (None) and 0 are both falsy. */
  function OrZero(x: Option<real>): real
  {
    if x.Some? && x.value != 0.0 then x.value else 0.0
  }

  /** For a number, Python's fallback is COALESCE(x, 0). */
  lemma OrZeroIsCoalesce(x: Option<real>)
    ensures OrZero(x) == Coalesce(x, 0.0)
  {
  }

  /** n / d * 100 for a denominator that cannot be zero (the group is never empty). */
  function Percent(n: int, d: int): real
    requires d != 0
  {
    (n as real) / (d as real) * 100.0
  }

  /** n / NULLIF(d, 0) * 100: NULL exactly when the denominator is zero. */
  function PercentOrNull(n: int, d: int): (r: Option<real>)
    ensures r.None? <==> d == 0
  {
    if d == 0 then None else Some(Percent(n, d))
  }

  /** A part of a whole is NULL or between 0 and 100 percent of it. */
  lemma PercentOrNullBounds(n: int, d: int)
    requires 0 <= n <= d
    ensures PercentOrNull(n, d).Some? ==> 0.0 <= PercentOrNull(n, d).value <= 100.0
  {
    if d != 0 {
      PercentBounds(n, d);
    }
  }

  /** A part of a positive whole is between 0 and 100 percent of it. */
  lemma PercentBounds(n: int, d: int)
    requires 0 <= n <= d && d > 0
    ensures 0.0 <= Percent(n, d) <= 100.0
  {
    var q := (n as real) / (d as real);
    assert q * (d as real) == n as real;
    assert (1.0 - q) * (d as real) == (d - n) as real;
    assert 0.0 <= (1.0 - q) * (d as real);
  }

  /** A share is 0 percent exactly when its part is 0. */
  lemma PercentZero(n: int, d: int)
    requires d != 0
    ensures Percent(n, d) == 0.0 <==> n == 0
  {
    var q := (n as real) / (d as real);
    assert q * (d as real) == n as real;
  }

  /** Percentages of one whole add up like their parts. */
  lemma PercentAdd(n1: int, n2: int, d: int)
    requires d != 0
    ensures Percent(n1, d) + Percent(n2, d) == Percent(n1 + n2, d)
  {
  }

  /** The whole is 100 percent of itself. */
  lemma PercentWhole(d: int)
    requires d != 0
    ensures Percent(d, d) == 100.0
  {
    var x := d as real;
    assert x / x == 1.0 by {
      assert (x / x) * x == x;
    }
  }

  /** No value occurs twice. */
  predicate Distinct<K(==)>(ks: seq<K>)
  {
    forall i, j :: 0 <= i < j < |ks| ==> ks[i] != ks[j]
  }

  /** No two rows agree on `key`. */
  predicate UniqueBy<T, K(==)>(xs: seq<T>, key: T -> K)
  {
    forall i, j :: 0 <= i < j < |xs| ==> key(xs[i]) != key(xs[j])
  }

  // ---------------------------------------------------------------------------
  // GROUP BY

  /** The rows of one group: those whose grouping key is `k` (input order kept). */
  function Group<T(==,!new), K(==)>(xs: seq<T>, key: T -> K, k: K): (g: seq<T>)
    ensures |g| <= |xs|
    ensures forall x :: x in g <==> x in xs && key(x) == k
  {
    if xs == [] then []
    else (if key(xs[0]) == k then [xs[0]] else []) + Group(xs[1..], key, k)
  }

  /** The groups that GROUP BY forms: every key that some row has, once each. */
  function Keys<T(==,!new), K(==)>(xs: seq<T>, key: T -> K): (ks: seq<K>)
    ensures Distinct(ks)
    ensures forall x :: x in xs ==> key(x) in ks
    ensures forall k :: k in ks ==> |Group(xs, key, k)| > 0
  {
    if xs == [] then []
    else
      var rest := Keys(xs[1..], key);
      assert forall x :: x in xs[1..] ==> x in xs;
      if key(xs[0]) in rest then rest else [key(xs[0])] + rest
  }

  /** SUM(w) over the rows (COUNT(*) when w is constantly 1). */
  function SumOf<T>(xs: seq<T>, w: T -> int): int
  {
    if xs == [] then 0 else w(xs[0]) + SumOf(xs[1..], w)
  }

  /** SUM(w) as SQL returns it: NULL over no rows. */
  function SumOrNull<T>(xs: seq<T>, w: T -> int): (r: Option<int>)
    ensures r.None? <==> xs == []
    ensures r.Some? ==> r.value == SumOf(xs, w)
  {
    if xs == [] then None else Some(SumOf(xs, w))
  }

  /** AVG(w): NULL over no rows, otherwise the mean, which times the row count is the sum. */
  function AvgOrNull<T>(xs: seq<T>, w: T -> int): (r: Option<real>)
    ensures r.None? <==> xs == []
    ensures r.Some? ==> r.value * (|xs| as real) == SumOf(xs, w) as real
  {
    if xs == [] then None else Some((SumOf(xs, w) as real) / (|xs| as real))
  }

  /** The set of values `f` takes on the rows: COUNT(DISTINCT f) is its size. */
  function Image<T(==,!new), V(==)>(xs: seq<T>, f: T -> V): (s: set<V>)
    ensures forall x :: x in xs ==> f(x) in s
    ensures |s| <= |xs|
    ensures |xs| > 0 ==> |s| > 0
  {
    if xs == [] then {}
    else
      var rest := Image(xs[1..], f);
      assert forall x :: x in xs[1..] ==> x in xs;
      assert xs[0] in xs;
      {f(xs[0])} + rest
  }

  lemma {:induction false} SumOfAppend<T>(a: seq<T>, b: seq<T>, w: T -> int)
    ensures SumOf(a + b, w) == SumOf(a, w) + SumOf(b, w)
  {
    if a == [] {
      assert a + b == b;
    } else {
      assert (a + b)[0] == a[0];
      assert (a + b)[1..] == a[1..] + b;
      SumOfAppend(a[1..], b, w);
    }
  }

  /** A weight bounded by [0, 1] per row sums to between 0 and the row count. */
  lemma {:induction false} SumOfIndicator<T>(xs: seq<T>, w: T -> int)
    requires forall i :: 0 <= i < |xs| ==> 0 <= w(xs[i]) <= 1
    ensures 0 <= SumOf(xs, w) <= |xs|
  {
    if xs != [] {
      SumOfIndicator(xs[1..], w);
    }
  }

  lemma {:induction false} SumOfNonNegative<T>(xs: seq<T>, w: T -> int)
    requires forall i :: 0 <= i < |xs| ==> 0 <= w(xs[i])
    ensures 0 <= SumOf(xs, w)
  {
    if xs != [] {
      SumOfNonNegative(xs[1..], w);
    }
  }

  /** SUM is additive in the weight. */
  lemma {:induction false} SumOfAdd<T>(xs: seq<T>, w1: T -> int, w2: T -> int, w: T -> int)
    requires forall i :: 0 <= i < |xs| ==> w(xs[i]) == w1(xs[i]) + w2(xs[i])
    ensures SumOf(xs, w) == SumOf(xs, w1) + SumOf(xs, w2)
  {
    if xs != [] {
      SumOfAdd(xs[1..], w1, w2, w);
    }
  }

  /** SUM is monotone in the weight. */
  lemma {:induction false} SumOfMono<T>(xs: seq<T>, w1: T -> int, w2: T -> int)
    requires forall i :: 0 <= i < |xs| ==> w1(xs[i]) <= w2(xs[i])
    ensures SumOf(xs, w1) <= SumOf(xs, w2)
  {
    if xs != [] {
      SumOfMono(xs[1..], w1, w2);
    }
  }

  /** A weight that is 1 on every row counts the rows. */
  lemma {:induction false} SumOfOnes<T>(xs: seq<T>, w: T -> int)
    requires forall i :: 0 <= i < |xs| ==> w(xs[i]) == 1
    ensures SumOf(xs, w) == |xs|
  {
    if xs != [] {
      SumOfOnes(xs[1..], w);
    }
  }

  /** A weight equal to the group key's indicator sums to the group's size. */
  lemma {:induction false} SumOfKeyIndicator<T(!new), K>(xs: seq<T>, key: T -> K, k: K, w: T -> int)
    requires forall i :: 0 <= i < |xs| ==> w(xs[i]) == (if key(xs[i]) == k then 1 else 0)
    ensures SumOf(xs, w) == |Group(xs, key, k)|
  {
    if xs != [] {
      SumOfKeyIndicator(xs[1..], key, k, w);
    }
  }

  // ---------------------------------------------------------------------------
  // Partition: the groups of a GROUP BY split the rows, so per-group sums add up.

  /** The sum, over the listed groups, of each group's SUM(w). */
  function SumGroups<T(==,!new), K(==)>(ks: seq<K>, xs: seq<T>, key: T -> K, w: T -> int): int
  {
    if ks == [] then 0 else SumOf(Group(xs, key, ks[0]), w) + SumGroups(ks[1..], xs, key, w)
  }

  lemma {:induction false} SumGroupsOfNothing<T(!new), K>(ks: seq<K>, key: T -> K, w: T -> int)
    ensures SumGroups(ks, [], key, w) == 0
  {
    if ks != [] {
      SumGroupsOfNothing(ks[1..], key, w);
    }
  }

  lemma {:induction false} SumGroupsCons<T(!new), K>(ks: seq<K>, x: T, xs: seq<T>, key: T -> K, w: T -> int)
    requires Distinct(ks)
    ensures SumGroups(ks, [x] + xs, key, w)
         == (if key(x) in ks then w(x) else 0) + SumGroups(ks, xs, key, w)
  {
    if ks != [] {
      assert ([x] + xs)[0] == x && ([x] + xs)[1..] == xs;
      assert Group([x] + xs, key, ks[0])
          == (if key(x) == ks[0] then [x] else []) + Group(xs, key, ks[0]);
      SumOfAppend(if key(x) == ks[0] then [x] else [], Group(xs, key, ks[0]), w);
      assert Distinct(ks[1..]);
      SumGroupsCons(ks[1..], x, xs, key, w);
      if key(x) == ks[0] {
        assert key(x) !in ks[1..];
      }
    }
  }

  /**
   * When the listed groups are distinct and cover every row, the per-group
   * sums add up to the sum over all rows.
   */
  lemma {:induction false} Partition<T(!new), K>(ks: seq<K>, xs: seq<T>, key: T -> K, w: T -> int)
    requires Distinct(ks)
    requires forall x :: x in xs ==> key(x) in ks
    ensures SumGroups(ks, xs, key, w) == SumOf(xs, w)
  {
    if xs == [] {
      SumGroupsOfNothing(ks, key, w);
    } else {
      assert xs == [xs[0]] + xs[1..];
      assert xs[0] in xs;
      assert forall x :: x in xs[1..] ==> x in xs;
      Partition(ks, xs[1..], key, w);
      SumGroupsCons(ks, xs[0], xs[1..], key, w);
    }
  }

  // ---------------------------------------------------------------------------
  // COUNT(DISTINCT ..)

  /** When no two rows share the value of `f`, COUNT(DISTINCT f) equals COUNT(*). */
  lemma {:induction false} ImageOfUnique<T(!new), V>(xs: seq<T>, f: T -> V)
    requires UniqueBy(xs, f)
    ensures |Image(xs, f)| == |xs|
  {
    if xs != [] {
      assert UniqueBy(xs[1..], f) by {
        forall i, j | 0 <= i < j < |xs[1..]| ensures f(xs[1..][i]) != f(xs[1..][j]) {
          assert xs[1..][i] == xs[i + 1] && xs[1..][j] == xs[j + 1];
        }
      }
      ImageOfUnique(xs[1..], f);
      forall i | 0 <= i < |xs[1..]| ensures f(xs[1..][i]) != f(xs[0]) {
        assert xs[1..][i] == xs[i + 1];
      }
      ImageExcludes(xs[1..], f, f(xs[0]));
    }
  }

  /** A value no row takes is not in the image. */
  lemma {:induction false} ImageExcludes<T(!new), V>(xs: seq<T>, f: T -> V, v: V)
    requires forall i :: 0 <= i < |xs| ==> f(xs[i]) != v
    ensures v !in Image(xs, f)
  {
    if xs != [] {
      ImageExcludes(xs[1..], f, v);
    }
  }

  /** A position of a row that has the value `v` of `f`. */
  lemma {:induction false} ImageWitness<T(!new), V>(xs: seq<T>, f: T -> V, v: V) returns (j: nat)
    requires v in Image(xs, f)
    ensures j < |xs| && f(xs[j]) == v
  {
    if f(xs[0]) == v {
      j := 0;
    } else {
      var j' := ImageWitness(xs[1..], f, v);
      j := j' + 1;
    }
  }

  /** Fewer rows (as a set) never have more distinct values. */
  lemma {:induction false} ImageSubset<T(!new), V>(a: seq<T>, b: seq<T>, f: T -> V)
    requires forall x :: x in a ==> x in b
    ensures Image(a, f) <= Image(b, f)
    ensures |Image(a, f)| <= |Image(b, f)|
  {
    if a != [] {
      assert a[0] in a;
      assert forall x :: x in a[1..] ==> x in a;
      ImageSubset(a[1..], b, f);
    }
    assert Image(b, f) == Image(a, f) + (Image(b, f) - Image(a, f));
  }

  /** COUNT(*) of a group of rows with unique `f` is COUNT(DISTINCT f) of that group. */
  lemma {:induction false} GroupUnique<T(!new), K, V>(xs: seq<T>, key: T -> K, k: K, f: T -> V)
    requires UniqueBy(xs, f)
    ensures UniqueBy(Group(xs, key, k), f)
  {
    if xs != [] {
      assert UniqueBy(xs[1..], f) by {
        forall i, j | 0 <= i < j < |xs[1..]| ensures f(xs[1..][i]) != f(xs[1..][j]) {
          assert xs[1..][i] == xs[i + 1] && xs[1..][j] == xs[j + 1];
        }
      }
      GroupUnique(xs[1..], key, k, f);
      var g' := Group(xs[1..], key, k);
      if key(xs[0]) == k {
        var g := [xs[0]] + g';
        forall i, j | 0 <= i < j < |g| ensures f(g[i]) != f(g[j]) {
          if i == 0 {
            assert g[j] in g';
            var p := SeqIndexOf(xs[1..], g[j]);
            assert f(xs[0]) != f(xs[p + 1]);
          } else {
            assert g[i] == g'[i - 1] && g[j] == g'[j - 1];
          }
        }
      }
    }
  }

  /** A position at which `x` occurs. */
  lemma {:induction false} SeqIndexOf<T>(xs: seq<T>, x: T) returns (p: nat)
    requires x in xs
    ensures p < |xs| && xs[p] == x
  {
    if xs[0] == x {
      p := 0;
    } else {
      var p' := SeqIndexOf(xs[1..], x);
      p := p' + 1;
    }
  }

  // ---------------------------------------------------------------------------
  // ORDER BY .. LIMIT

  /** `le(a, b)`: a may come before b. */
  ghost predicate TotalPreorder<T(!new)>(le: (T, T) -> bool)
  {
    && (forall a, b :: le(a, b) || le(b, a))
    && (forall a, b, c :: le(a, b) && le(b, c) ==> le(a, c))
  }

  predicate SortedBy<T>(xs: seq<T>, le: (T, T) -> bool)
  {
    forall i, j :: 0 <= i < j < |xs| ==> le(xs[i], xs[j])
  }

  /** Inserts `x` before the first element it may precede. */
  function InsertBy<T(==,!new)>(x: T, xs: seq<T>, le: (T, T) -> bool): (r: seq<T>)
    ensures multiset(r) == multiset(xs) + multiset{x}
    ensures |r| == |xs| + 1
    ensures r[0] == x || (xs != [] && r[0] == xs[0])
  {
    if xs == [] then [x]
    else if le(x, xs[0]) then
      [x] + xs
    else
      assert xs == [xs[0]] + xs[1..];
      [xs[0]] + InsertBy(x, xs[1..], le)
  }

  /** A sorted sequence stays sorted under a head that may precede its first element. */
  lemma ConsSorted<T(!new)>(a: T, s: seq<T>, le: (T, T) -> bool)
    requires TotalPreorder(le) && SortedBy(s, le)
    requires s != [] ==> le(a, s[0])
    ensures SortedBy([a] + s, le)
  {
    forall i, j | 0 <= i < j < |[a] + s| ensures le(([a] + s)[i], ([a] + s)[j]) {
      if i == 0 && j > 1 {
        assert le(s[0], s[j - 1]);
      }
    }
  }

  lemma {:induction false} InsertBySorted<T(!new)>(x: T, xs: seq<T>, le: (T, T) -> bool)
    requires TotalPreorder(le) && SortedBy(xs, le)
    ensures SortedBy(InsertBy(x, xs, le), le)
  {
    if xs == [] {
    } else if le(x, xs[0]) {
      ConsSorted(x, xs, le);
    } else {
      var rest := InsertBy(x, xs[1..], le);
      assert SortedBy(xs[1..], le) by {
        forall i, j | 0 <= i < j < |xs[1..]| ensures le(xs[1..][i], xs[1..][j]) {
          assert xs[1..][i] == xs[i + 1] && xs[1..][j] == xs[j + 1];
        }
      }
      InsertBySorted(x, xs[1..], le);
      assert le(xs[0], x);
      assert |xs| > 1 ==> le(xs[0], xs[1]);
      ConsSorted(xs[0], rest, le);
    }
  }

  /** Insertion sort: a permutation of `xs`, in `le` order. */
  function SortBy<T(==,!new)>(xs: seq<T>, le: (T, T) -> bool): (r: seq<T>)
    ensures multiset(r) == multiset(xs)
    ensures |r| == |xs|
    ensures TotalPreorder(le) ==> SortedBy(r, le)
  {
    if xs == [] then []
    else
      assert xs == [xs[0]] + xs[1..];
      var s := SortBy(xs[1..], le);
      assert TotalPreorder(le) ==> SortedBy(InsertBy(xs[0], s, le), le) by {
        if TotalPreorder(le) {
          InsertBySorted(xs[0], s, le);
        }
      }
      InsertBy(xs[0], s, le)
  }

  lemma {:induction false} InsertBySum<T(!new)>(x: T, xs: seq<T>, le: (T, T) -> bool, w: T -> int)
    ensures SumOf(InsertBy(x, xs, le), w) == w(x) + SumOf(xs, w)
  {
    if xs != [] && !le(x, xs[0]) {
      InsertBySum(x, xs[1..], le, w);
    }
  }

  /** Sorting does not change a sum. */
  lemma {:induction false} SortBySum<T(!new)>(xs: seq<T>, le: (T, T) -> bool, w: T -> int)
    ensures SumOf(SortBy(xs, le), w) == SumOf(xs, w)
  {
    if xs != [] {
      SortBySum(xs[1..], le, w);
      InsertBySum(xs[0], SortBy(xs[1..], le), le, w);
    }
  }

  /** In a sorted sequence every element of a prefix may precede every later one. */
  lemma PrefixPrecedes<T(!new)>(s: seq<T>, m: nat, le: (T, T) -> bool)
    requires SortedBy(s, le) && m <= |s|
    ensures forall x, y :: x in s[..m] && y in multiset(s) - multiset(s[..m]) ==> le(x, y)
  {
    assert s == s[..m] + s[m..];
    assert multiset(s) == multiset(s[..m]) + multiset(s[m..]);
    forall x, y | x in s[..m] && y in multiset(s) - multiset(s[..m]) ensures le(x, y) {
      var i := SeqIndexOf(s[..m], x);
      assert y in multiset(s[m..]);
      var j := SeqIndexOf(s[m..], y);
      assert s[..m][i] == s[i] && s[m..][j] == s[m + j];
    }
  }

  /**
   * ORDER BY le LIMIT n: the first n rows of the sorted table. Every row kept
   * may precede every row dropped.
   */
  function TopN<T(==,!new)>(xs: seq<T>, le: (T, T) -> bool, n: nat): (r: seq<T>)
    ensures |r| == if n < |xs| then n else |xs|
    ensures multiset(r) <= multiset(xs)
    ensures n >= |xs| ==> multiset(r) == multiset(xs)
    ensures TotalPreorder(le) ==> SortedBy(r, le)
    ensures TotalPreorder(le) ==>
              forall x, y :: x in r && y in multiset(xs) - multiset(r) ==> le(x, y)
  {
    var s := SortBy(xs, le);
    var m := if n < |s| then n else |s|;
    PrefixFacts(xs, s, m, le);
    s[..m]
  }

  /** The prefix of a sorted permutation keeps the properties TopN promises. */
  lemma PrefixFacts<T(!new)>(xs: seq<T>, s: seq<T>, m: nat, le: (T, T) -> bool)
    requires multiset(s) == multiset(xs) && m <= |s|
    requires TotalPreorder(le) ==> SortedBy(s, le)
    ensures multiset(s[..m]) <= multiset(xs)
    ensures m == |s| ==> multiset(s[..m]) == multiset(xs)
    ensures TotalPreorder(le) ==> SortedBy(s[..m], le)
    ensures TotalPreorder(le) ==>
              forall x, y :: x in s[..m] && y in multiset(xs) - multiset(s[..m]) ==> le(x, y)
  {
    assert s == s[..m] + s[m..];
    assert multiset(s) == multiset(s[..m]) + multiset(s[m..]);
    if TotalPreorder(le) {
      PrefixPrecedes(s, m, le);
      forall i, j | 0 <= i < j < m ensures le(s[..m][i], s[..m][j]) {
        assert s[..m][i] == s[i] && s[..m][j] == s[j];
      }
    }
  }

  /** ORDER BY neither adds nor drops a row. */
  lemma SortByMember<T(!new)>(xs: seq<T>, le: (T, T) -> bool, x: T)
    ensures x in SortBy(xs, le) <==> x in xs
  {
    assert x in SortBy(xs, le) <==> x in multiset(SortBy(xs, le));
  }

  /** Every row of TopN is a row of the table. */
  lemma TopNMember<T(!new)>(xs: seq<T>, le: (T, T) -> bool, n: nat, x: T)
    requires x in TopN(xs, le, n)
    ensures x in xs
  {
    assert x in multiset(TopN(xs, le, n));
  }

  /** With a LIMIT at least the table size, every row is kept. */
  lemma TopNKeepsAll<T(!new)>(xs: seq<T>, le: (T, T) -> bool, n: nat, y: T)
    ensures n >= |xs| && y in xs ==> y in TopN(xs, le, n)
  {
    if n >= |xs| && y in xs {
      assert y in multiset(xs);
      assert y in multiset(TopN(xs, le, n));
    }
  }

  /**
   * A row that ORDER BY .. LIMIT n drops: the limit was reached, and every
   * row kept may precede it.
   */
  lemma TopNDropped<T(!new)>(xs: seq<T>, le: (T, T) -> bool, n: nat, y: T)
    requires TotalPreorder(le) && y in xs && y !in TopN(xs, le, n)
    ensures n < |xs| && |TopN(xs, le, n)| == n
    ensures forall x :: x in TopN(xs, le, n) ==> le(x, y)
  {
    var r := TopN(xs, le, n);
    TopNKeepsAll(xs, le, n, y);
    assert y in multiset(xs) - multiset(r);
  }

  /** Keeping a sub-bag of rows keeps the keys unique. */
  lemma {:induction false} UniqueBySubBag<T(!new), K>(r: seq<T>, xs: seq<T>, key: T -> K)
    requires UniqueBy(xs, key)
    requires multiset(r) <= multiset(xs)
    ensures UniqueBy(r, key)
  {
    forall i, j | 0 <= i < j < |r| ensures key(r[i]) != key(r[j]) {
      if key(r[i]) == key(r[j]) {
        assert r[i] in multiset(r) && r[j] in multiset(r);
        var p := SeqIndexOf(xs, r[i]);
        var q := SeqIndexOf(xs, r[j]);
        assert p == q;
        assert r[i] == r[j];
        TwiceInBag(r, i, j);
        OnceInUnique(xs, key, p);
        assert false;
      }
    }
  }

  lemma TwiceInBag<T>(r: seq<T>, i: nat, j: nat)
    requires i < j < |r| && r[i] == r[j]
    ensures multiset(r)[r[i]] >= 2
  {
    assert r == r[..i] + [r[i]] + r[i + 1..j] + [r[j]] + r[j + 1..];
  }

  lemma {:induction false} OnceInUnique<T, K>(xs: seq<T>, key: T -> K, p: nat)
    requires UniqueBy(xs, key) && p < |xs|
    ensures multiset(xs)[xs[p]] == 1
  {
    assert xs == xs[..p] + [xs[p]] + xs[p + 1..];
    NotInUnique(xs[..p], xs, key, 0, p);
    NotInUnique(xs[p + 1..], xs, key, p + 1, p);
  }

  lemma NotInUnique<T, K>(part: seq<T>, xs: seq<T>, key: T -> K, from: nat, p: nat)
    requires UniqueBy(xs, key) && p < |xs|
    requires from + |part| <= |xs| && part == xs[from..from + |part|]
    requires p < from || from + |part| <= p
    ensures multiset(part)[xs[p]] == 0
  {
    forall i | 0 <= i < |part| ensures part[i] != xs[p] {
      assert part[i] == xs[from + i];
      assert key(xs[from + i]) != key(xs[p]);
    }
    assert xs[p] !in part;
  }
  // ---------------------------------------------------------------------------
  // WHERE / HAVING

  /** The rows satisfying `p`, in input order. */
  function Where<T(==,!new)>(xs: seq<T>, p: T -> bool): (r: seq<T>)
    ensures |r| <= |xs|
    ensures forall x :: x in r <==> x in xs && p(x)
  {
    if xs == [] then []
    else
      assert forall x :: x in xs <==> x == xs[0] || x in xs[1..];
      (if p(xs[0]) then [xs[0]] else []) + Where(xs[1..], p)
  }

  /** Rows that a filter drops do not change a sum when they weigh nothing. */
  lemma {:induction false} SumOfWhere<T(!new)>(xs: seq<T>, p: T -> bool, w: T -> int)
    requires forall i :: 0 <= i < |xs| && !p(xs[i]) ==> w(xs[i]) == 0
    ensures SumOf(Where(xs, p), w) == SumOf(xs, w)
  {
    if xs != [] {
      SumOfWhere(xs[1..], p, w);
      SumOfAppend(if p(xs[0]) then [xs[0]] else [], Where(xs[1..], p), w);
    }
  }

  /** A filter keeps the keys of a keyed table unique. */
  lemma {:induction false} WhereUnique<T(!new), K>(xs: seq<T>, p: T -> bool, key: T -> K)
    requires UniqueBy(xs, key)
    ensures UniqueBy(Where(xs, p), key)
  {
    if xs != [] {
      UniqueByTail(xs, key);
      WhereUnique(xs[1..], p, key);
      var rest := Where(xs[1..], p);
      if p(xs[0]) {
        forall j | 0 <= j < |rest| ensures key(xs[0]) != key(rest[j]) {
          assert rest[j] in rest;
          var q := SeqIndexOf(xs[1..], rest[j]);
          assert xs[1..][q] == xs[q + 1];
        }
        UniqueByAppend([xs[0]], rest, key);
      }
    }
  }

  /** A weight that is 0 on every row sums to 0. */
  lemma {:induction false} SumOfZero<T>(xs: seq<T>, w: T -> int)
    requires forall i :: 0 <= i < |xs| ==> w(xs[i]) == 0
    ensures SumOf(xs, w) == 0
  {
    if xs != [] {
      SumOfZero(xs[1..], w);
    }
  }

  lemma UniqueByTail<T, K>(xs: seq<T>, key: T -> K)
    requires UniqueBy(xs, key) && xs != []
    ensures UniqueBy(xs[1..], key)
  {
    forall i, j | 0 <= i < j < |xs[1..]| ensures key(xs[1..][i]) != key(xs[1..][j]) {
      assert xs[1..][i] == xs[i + 1] && xs[1..][j] == xs[j + 1];
    }
  }

  /** Two keyed tables with no key in common concatenate to a keyed table. */
  lemma UniqueByAppend<T, K>(a: seq<T>, b: seq<T>, key: T -> K)
    requires UniqueBy(a, key) && UniqueBy(b, key)
    requires forall i, j :: 0 <= i < |a| && 0 <= j < |b| ==> key(a[i]) != key(b[j])
    ensures UniqueBy(a + b, key)
  {
    forall i, j | 0 <= i < j < |a + b| ensures key((a + b)[i]) != key((a + b)[j]) {
      if j < |a| {
        assert (a + b)[i] == a[i] && (a + b)[j] == a[j];
      } else if i < |a| {
        assert (a + b)[i] == a[i] && (a + b)[j] == b[j - |a|];
      } else {
        assert (a + b)[i] == b[i - |a|] && (a + b)[j] == b[j - |a|];
      }
    }
  }

  // ---------------------------------------------------------------------------
  // Sums of real-valued columns (AVG over exact rates)

  function SumReal<T>(xs: seq<T>, w: T -> real): real
  {
    if xs == [] then 0.0 else w(xs[0]) + SumReal(xs[1..], w)
  }

  lemma {:induction false} SumRealAppend<T>(a: seq<T>, b: seq<T>, w: T -> real)
    ensures SumReal(a + b, w) == SumReal(a, w) + SumReal(b, w)
  {
    if a == [] {
      assert a + b == b;
    } else {
      assert (a + b)[0] == a[0];
      assert (a + b)[1..] == a[1..] + b;
      SumRealAppend(a[1..], b, w);
    }
  }

  lemma {:induction false} InsertBySumReal<T(!new)>(x: T, xs: seq<T>, le: (T, T) -> bool, w: T -> real)
    ensures SumReal(InsertBy(x, xs, le), w) == w(x) + SumReal(xs, w)
  {
    if xs != [] && !le(x, xs[0]) {
      InsertBySumReal(x, xs[1..], le, w);
    }
  }

  /** Sorting does not change a sum of reals. */
  lemma {:induction false} SortBySumReal<T(!new)>(xs: seq<T>, le: (T, T) -> bool, w: T -> real)
    ensures SumReal(SortBy(xs, le), w) == SumReal(xs, w)
  {
    if xs != [] {
      SortBySumReal(xs[1..], le, w);
      InsertBySumReal(xs[0], SortBy(xs[1..], le), le, w);
    }
  }

  /** A LIMIT at least the table size keeps the whole sorted table. */
  lemma TopNAll<T(!new)>(xs: seq<T>, le: (T, T) -> bool, n: nat)
    requires n >= |xs|
    ensures TopN(xs, le, n) == SortBy(xs, le)
  {
  }

  // ---------------------------------------------------------------------------
  // FULL OUTER JOIN on a key

  /** The row of a keyed table with key `k`, if any (the first one). */
  function Lookup<T(!new), K(==)>(xs: seq<T>, key: T -> K, k: K): (r: Option<T>)
    ensures r.Some? ==> r.value in xs && key(r.value) == k
    ensures r.None? <==> forall x :: x in xs ==> key(x) != k
  {
    if xs == [] then None
    else if key(xs[0]) == k then Some(xs[0])
    else
      assert forall x :: x in xs <==> x == xs[0] || x in xs[1..];
      Lookup(xs[1..], key, k)
  }

  /** In a keyed table, the lookup of a row's key finds that row. */
  lemma LookupUnique<T(!new), K>(xs: seq<T>, key: T -> K, x: T)
    requires UniqueBy(xs, key) && x in xs
    ensures Lookup(xs, key, key(x)) == Some(x)
  {
    var r := Lookup(xs, key, key(x));
    var p := SeqIndexOf(xs, x);
    var q := SeqIndexOf(xs, r.value);
    assert key(xs[p]) == key(xs[q]);
  }

  /** One row of `l FULL OUTER JOIN r ON key`: either side may be NULL, not both. */
  datatype Joined<K, A, B> = Joined(key: K, left: Option<A>, right: Option<B>)

  function JoinedKey<K, A, B>(j: Joined<K, A, B>): K { j.key }

  /** Each left row with its matching right row, or NULL. */
  function LeftPart<K(==), A(!new), B(!new)>(ls: seq<A>, rs: seq<B>, lk: A -> K, rk: B -> K): (r: seq<Joined<K, A, B>>)
    ensures |r| == |ls|
    ensures forall i :: 0 <= i < |r| ==>
              r[i].key == lk(ls[i]) && r[i].left == Some(ls[i]) && r[i].right == Lookup(rs, rk, lk(ls[i]))
  {
    if ls == [] then []
    else [Joined(lk(ls[0]), Some(ls[0]), Lookup(rs, rk, lk(ls[0])))] + LeftPart(ls[1..], rs, lk, rk)
  }

  /** The right rows that no left row matches, with a NULL left side. */
  function RightOnlyPart<K(==), A(!new), B(!new)>(ls: seq<A>, rs: seq<B>, lk: A -> K, rk: B -> K): (r: seq<Joined<K, A, B>>)
    ensures forall j :: j in r ==>
              j.left.None? && j.right.Some? && j.right.value in rs
              && j.key == rk(j.right.value) && Lookup(ls, lk, j.key).None?
    ensures forall b :: b in rs && Lookup(ls, lk, rk(b)).None? ==> Joined(rk(b), None, Some(b)) in r
  {
    if rs == [] then []
    else
      assert forall b :: b in rs <==> b == rs[0] || b in rs[1..];
      (if Lookup(ls, lk, rk(rs[0])).None? then [Joined(rk(rs[0]), None, Some(rs[0]))] else [])
      + RightOnlyPart(ls, rs[1..], lk, rk)
  }

  /**
   * ls FULL OUTER JOIN rs ON lk = rk: a row per left row, then a row per
   * unmatched right row. No row has two NULL sides, and every row of either
   * side is reported.
   */
  function FullOuterJoin<K(==), A(!new), B(!new)>(ls: seq<A>, rs: seq<B>, lk: A -> K, rk: B -> K): (r: seq<Joined<K, A, B>>)
    ensures forall j :: j in r ==> j.left.Some? || j.right.Some?
    ensures forall j :: j in r && j.left.Some? ==> j.left.value in ls && lk(j.left.value) == j.key
    ensures forall j :: j in r && j.left.None? ==> Lookup(ls, lk, j.key).None?
    ensures forall j :: j in r && j.right.Some? ==> j.right.value in rs && rk(j.right.value) == j.key
    ensures forall j :: j in r && j.right.None? ==> Lookup(rs, rk, j.key).None?
    ensures forall a :: a in ls ==> Joined(lk(a), Some(a), Lookup(rs, rk, lk(a))) in r
    ensures forall b :: b in rs && Lookup(ls, lk, rk(b)).None? ==> Joined(rk(b), None, Some(b)) in r
  {
    var lp := LeftPart(ls, rs, lk, rk);
    var rp := RightOnlyPart(ls, rs, lk, rk);
    assert forall a :: a in ls ==> Joined(lk(a), Some(a), Lookup(rs, rk, lk(a))) in lp by {
      forall a | a in ls ensures Joined(lk(a), Some(a), Lookup(rs, rk, lk(a))) in lp {
        var p := SeqIndexOf(ls, a);
        assert lp[p] == Joined(lk(a), Some(a), Lookup(rs, rk, lk(a)));
      }
    }
    assert forall j :: j in lp ==> exists i :: 0 <= i < |lp| && lp[i] == j;
    lp + rp
  }
  lemma {:induction false} RightOnlyPartUnique<K, A(!new), B(!new)>(ls: seq<A>, rs: seq<B>, lk: A -> K, rk: B -> K)
    requires UniqueBy(rs, rk)
    ensures UniqueBy(RightOnlyPart(ls, rs, lk, rk), JoinedKey)
  {
    if rs != [] {
      UniqueByTail(rs, rk);
      RightOnlyPartUnique(ls, rs[1..], lk, rk);
      var head := if Lookup(ls, lk, rk(rs[0])).None? then [Joined(rk(rs[0]), None, Some(rs[0]))] else [];
      var rest := RightOnlyPart(ls, rs[1..], lk, rk);
      forall i, j | 0 <= i < |head| && 0 <= j < |rest| ensures JoinedKey(head[i]) != JoinedKey(rest[j]) {
        assert rest[j] in rest;
        var q := SeqIndexOf(rs[1..], rest[j].right.value);
        assert rs[1..][q] == rs[q + 1];
        assert rk(rs[0]) != rk(rs[q + 1]);
      }
      UniqueByAppend(head, rest, JoinedKey);
    }
  }

  /** With both sides keyed, the join reports each key once. */
  lemma FullOuterJoinUnique<K, A(!new), B(!new)>(ls: seq<A>, rs: seq<B>, lk: A -> K, rk: B -> K)
    requires UniqueBy(ls, lk) && UniqueBy(rs, rk)
    ensures UniqueBy(FullOuterJoin(ls, rs, lk, rk), JoinedKey)
  {
    var lp := LeftPart(ls, rs, lk, rk);
    var rp := RightOnlyPart(ls, rs, lk, rk);
    assert UniqueBy(lp, JoinedKey) by {
      forall i, j | 0 <= i < j < |lp| ensures JoinedKey(lp[i]) != JoinedKey(lp[j]) {
        assert lk(ls[i]) != lk(ls[j]);
      }
    }
    RightOnlyPartUnique(ls, rs, lk, rk);
    forall i, j | 0 <= i < |lp| && 0 <= j < |rp| ensures JoinedKey(lp[i]) != JoinedKey(rp[j]) {
      assert ls[i] in ls;
      assert rp[j] in rp;
      assert Lookup(ls, lk, lk(ls[i])).Some?;
    }
    UniqueByAppend(lp, rp, JoinedKey);
  }

  /** A group whose key no row has is empty. */
  lemma {:induction false} GroupOfAbsent<T(!new), K>(xs: seq<T>, key: T -> K, k: K)
    requires forall i :: 0 <= i < |xs| ==> key(xs[i]) != k
    ensures Group(xs, key, k) == []
  {
    if xs != [] {
      GroupOfAbsent(xs[1..], key, k);
    }
  }

  /** A key that GROUP BY does not form has an empty group. */
  lemma GroupOfNonKey<T(!new), K>(xs: seq<T>, key: T -> K, k: K)
    requires k !in Keys(xs, key)
    ensures Group(xs, key, k) == []
  {
    forall i | 0 <= i < |xs| ensures key(xs[i]) != k {
      assert xs[i] in xs;
    }
    GroupOfAbsent(xs, key, k);
  }
}
