/** Filtering, sorting and summing of table rows. */
module Lists {
  import opened Common

  function Filter<T(!new)>(s: seq<T>, p: T -> bool): (r: seq<T>)
    ensures forall x :: x in r <==> x in s && p(x)
    ensures |r| <= |s|
  {
    if s == [] then []
    else if p(s[0]) then [s[0]] + Filter(s[1..], p)
    else Filter(s[1..], p)
  }

  function Map<T, U>(s: seq<T>, f: T -> U): (r: seq<U>)
    ensures |r| == |s| && forall i :: 0 <= i < |s| ==> r[i] == f(s[i])
  {
    seq(|s|, i requires 0 <= i < |s| => f(s[i]))
  }

  lemma {:induction false} FilterNone<T(!new)>(s: seq<T>, p: T -> bool)
    requires forall x :: x in s ==> !p(x)
    ensures Filter(s, p) == []
  {
    if s != [] {
      FilterNone(s[1..], p);
    }
  }

  lemma {:induction false} FilterSame<T(!new)>(s: seq<T>, p: T -> bool, q: T -> bool)
    requires forall x :: x in s ==> p(x) == q(x)
    ensures Filter(s, p) == Filter(s, q)
  {
    if s != [] {
      FilterSame(s[1..], p, q);
    }
  }

  /** Every row that passes is kept as often as it was there. */
  lemma {:induction false} FilterCounts<T(!new)>(s: seq<T>, p: T -> bool, x: T)
    ensures multiset(Filter(s, p))[x] == if p(x) then multiset(s)[x] else 0
  {
    if s != [] {
      FilterCounts(s[1..], p, x);
      assert s == [s[0]] + s[1..];
    }
  }

  lemma {:induction false} FilterTwice<T(!new)>(s: seq<T>, p: T -> bool, q: T -> bool, both: T -> bool)
    requires forall x :: both(x) == (p(x) && q(x))
    ensures Filter(Filter(s, p), q) == Filter(s, both)
  {
    if s != [] {
      FilterTwice(s[1..], p, q, both);
      if p(s[0]) {
        assert ([s[0]] + Filter(s[1..], p))[1..] == Filter(s[1..], p);
      }
    }
  }

  // ---------- Stable sorting by an integer key ----------

  predicate SortedBy<T>(s: seq<T>, key: T -> int) {
    forall i, j :: 0 <= i <= j < |s| ==> key(s[i]) <= key(s[j])
  }

  /** Puts x before the first element whose key is not smaller. */
  function Insert<T>(x: T, s: seq<T>, key: T -> int): seq<T> {
    if s == [] || key(x) <= key(s[0]) then [x] + s else [s[0]] + Insert(x, s[1..], key)
  }

  /** ORDER BY key ASC; rows with equal keys keep the order of the table. */
  function SortBy<T>(s: seq<T>, key: T -> int): seq<T> {
    if s == [] then [] else Insert(s[0], SortBy(s[1..], key), key)
  }

  lemma {:induction false} InsertKeepsRows<T>(x: T, s: seq<T>, key: T -> int)
    ensures multiset(Insert(x, s, key)) == multiset{x} + multiset(s)
  {
    if s == [] || key(x) <= key(s[0]) {
      assert multiset([x] + s) == multiset{x} + multiset(s);
    } else {
      InsertKeepsRows(x, s[1..], key);
      assert s == [s[0]] + s[1..];
    }
  }

  lemma PrependSorted<T>(x: T, s: seq<T>, key: T -> int)
    requires SortedBy(s, key) && (s == [] || key(x) <= key(s[0]))
    ensures SortedBy([x] + s, key)
  {
  }

  lemma {:induction false} InsertKeepsOrder<T>(x: T, s: seq<T>, key: T -> int)
    requires SortedBy(s, key)
    ensures SortedBy(Insert(x, s, key), key)
  {
    if s == [] || key(x) <= key(s[0]) {
      PrependSorted(x, s, key);
    } else {
      InsertKeepsOrder(x, s[1..], key);
      var tail := Insert(x, s[1..], key);
      assert tail[0] == x || tail[0] == s[1];
      PrependSorted(s[0], tail, key);
    }
  }

  lemma {:induction false} SortBySorts<T>(s: seq<T>, key: T -> int)
    ensures SortedBy(SortBy(s, key), key)
    ensures multiset(SortBy(s, key)) == multiset(s)
  {
    if s != [] {
      SortBySorts(s[1..], key);
      InsertKeepsOrder(s[0], SortBy(s[1..], key), key);
      InsertKeepsRows(s[0], SortBy(s[1..], key), key);
      assert s == [s[0]] + s[1..];
    }
  }

  /** The first n rows of a sorted list, and what is left of its rows. */
  lemma TakeSorted<T>(s: seq<T>, n: nat, key: T -> int)
    requires SortedBy(s, key) && n <= |s|
    ensures multiset(s[..n]) <= multiset(s)
    ensures forall x, k :: x in multiset(s) - multiset(s[..n]) && 0 <= k < n ==> key(s[k]) <= key(x)
  {
    assert s == s[..n] + s[n..];
    assert multiset(s) - multiset(s[..n]) == multiset(s[n..]);
    forall x, k | x in multiset(s) - multiset(s[..n]) && 0 <= k < n ensures key(s[k]) <= key(x) {
      assert x in s[n..];
      var i :| 0 <= i < |s[n..]| && s[n..][i] == x;
      assert s[n + i] == x;
    }
  }

  lemma {:induction false} InsertThenFilter<T(!new)>(x: T, s: seq<T>, key: T -> int, c: int, p: T -> bool)
    requires SortedBy(s, key) && forall y :: p(y) <==> key(y) > c
    ensures Filter(Insert(x, s, key), p) == if p(x) then Insert(x, Filter(s, p), key) else Filter(s, p)
  {
    if s == [] || key(x) <= key(s[0]) {
      assert ([x] + s)[1..] == s;
      var f := Filter(s, p);
      if p(x) && f != [] {
        assert f[0] in f && f[0] in s;
      }
    } else {
      InsertThenFilter(x, s[1..], key, c, p);
      var rest := Insert(x, s[1..], key);
      assert ([s[0]] + rest)[1..] == rest;
      if p(s[0]) {
        var f := Filter(s[1..], p);
        assert ([s[0]] + f)[1..] == f;
      }
    }
  }

  /** WHERE key > c commutes with ORDER BY key. */
  lemma {:induction false} SortThenFilter<T(!new)>(s: seq<T>, key: T -> int, c: int, p: T -> bool)
    requires forall y :: p(y) <==> key(y) > c
    ensures Filter(SortBy(s, key), p) == SortBy(Filter(s, p), key)
  {
    if s != [] {
      SortBySorts(s[1..], key);
      SortThenFilter(s[1..], key, c, p);
      InsertThenFilter(s[0], SortBy(s[1..], key), key, c, p);
      if p(s[0]) {
        assert ([s[0]] + Filter(s[1..], p))[1..] == Filter(s[1..], p);
      }
    }
  }

  // ---------- Sums ----------

  function Sum<T>(s: seq<T>, f: T -> int): int {
    if s == [] then 0 else f(s[0]) + Sum(s[1..], f)
  }

  lemma {:induction false} SumAppend<T>(a: seq<T>, b: seq<T>, f: T -> int)
    ensures Sum(a + b, f) == Sum(a, f) + Sum(b, f)
  {
    if a == [] {
      assert a + b == b;
    } else {
      assert (a + b)[1..] == a[1..] + b;
      SumAppend(a[1..], b, f);
    }
  }

  lemma {:induction false} SumSame<T>(s: seq<T>, f: T -> int, g: T -> int)
    requires forall x :: x in s ==> f(x) == g(x)
    ensures Sum(s, f) == Sum(s, g)
  {
    if s != [] {
      SumSame(s[1..], f, g);
    }
  }

  /** Summing an image row by row, or the rows themselves. */
  lemma {:induction false} SumOfMap<T, U>(s: seq<T>, m: T -> U, f: U -> int, g: T -> int)
    requires forall x :: x in s ==> g(x) == f(m(x))
    ensures Sum(Map(s, m), f) == Sum(s, g)
  {
    if s != [] {
      assert Map(s, m)[1..] == Map(s[1..], m);
      SumOfMap(s[1..], m, f, g);
    }
  }

  lemma SumCons<T>(x: T, s: seq<T>, f: T -> int)
    ensures Sum([x] + s, f) == f(x) + Sum(s, f)
  {
    assert ([x] + s)[1..] == s;
  }

  lemma SplitAt<T>(s: seq<T>, i: nat)
    requires i < |s|
    ensures s == s[..i] + ([s[i]] + s[i + 1..])
  {
  }

  lemma SumInsert<T>(before: seq<T>, x: T, after: seq<T>, f: T -> int)
    ensures Sum(before + ([x] + after), f) == f(x) + Sum(before + after, f)
  {
    SumAppend(before, [x] + after, f);
    SumCons(x, after, f);
    SumAppend(before, after, f);
  }

  /** Taking one row out of a sum. */
  lemma SumWithout<T>(s: seq<T>, i: nat, f: T -> int)
    requires i < |s|
    ensures Sum(s, f) == f(s[i]) + Sum(s[..i] + s[i + 1..], f)
  {
    SplitAt(s, i);
    SumInsert(s[..i], s[i], s[i + 1..], f);
  }

  lemma MultisetWithout<T>(s: seq<T>, i: nat)
    requires i < |s|
    ensures multiset(s) == multiset(s[..i] + s[i + 1..]) + multiset{s[i]}
  {
    SplitAt(s, i);
  }

  lemma {:induction false} SumAtLeast<T(!new)>(s: seq<T>, f: T -> int, x: T)
    requires x in s && forall y :: y in s ==> f(y) >= 0
    ensures Sum(s, f) >= f(x)
  {
    if s[0] != x {
      SumAtLeast(s[1..], f, x);
    } else {
      SumFromZero(s[1..], f);
    }
  }

  lemma {:induction false} SumFromZero<T>(s: seq<T>, f: T -> int)
    requires forall y :: y in s ==> f(y) >= 0
    ensures Sum(s, f) >= 0
  {
    if s != [] {
      SumFromZero(s[1..], f);
    }
  }

  /** A sum does not depend on the order of its rows. */
  lemma {:induction false} SumPermutation<T>(a: seq<T>, b: seq<T>, f: T -> int)
    requires multiset(a) == multiset(b)
    ensures Sum(a, f) == Sum(b, f)
    decreases |a|
  {
    if a == [] {
      assert |multiset(b)| == |b| == 0;
    } else {
      assert a[0] in multiset(b);
      var i :| 0 <= i < |b| && b[i] == a[0];
      SumWithout(b, i, f);
      MultisetWithout(b, i);
      assert a == [a[0]] + a[1..];
      assert multiset(a[1..]) == multiset(a) - multiset{a[0]};
      SumPermutation(a[1..], b[..i] + b[i + 1..], f);
    }
  }

  // ---------- Duplicates ----------

  predicate Distinct<T(==)>(s: seq<T>) {
    forall i, j :: 0 <= i < j < |s| ==> s[i] != s[j]
  }

  function Elements<T>(s: seq<T>): set<T> {
    set x | x in s
  }

  /** A list has as many elements as rows exactly when no row repeats. */
  lemma {:induction false} CountElements<T>(s: seq<T>)
    ensures |Elements(s)| <= |s|
    ensures |Elements(s)| == |s| <==> Distinct(s)
  {
    if s != [] {
      CountElements(s[1..]);
      DistinctCons(s);
      assert s == [s[0]] + s[1..];
      assert Elements(s) == {s[0]} + Elements(s[1..]);
      if s[0] in s[1..] {
        assert Elements(s) == Elements(s[1..]);
      }
    }
  }

  lemma DistinctCons<T>(s: seq<T>)
    requires s != []
    ensures Distinct(s) <==> Distinct(s[1..]) && s[0] !in s[1..]
  {
    assert forall i :: 0 <= i < |s[1..]| ==> s[1..][i] == s[i + 1];
    if s[0] in s[1..] {
      var i :| 0 <= i < |s[1..]| && s[1..][i] == s[0];
      assert s[i + 1] == s[0];
    } else if Distinct(s[1..]) {
      forall i, j | 0 <= i < j < |s| ensures s[i] != s[j] {
        assert s[j] == s[1..][j - 1];
      }
    }
  }

  lemma SubsetOfSameSize<T>(a: set<T>, b: set<T>)
    requires a <= b && |a| >= |b|
    ensures a == b
  {
    assert b == a + (b - a);
    assert |b| == |a| + |b - a|;
  }

  lemma {:induction false} DistinctCounts<T>(s: seq<T>, x: T)
    requires Distinct(s)
    ensures multiset(s)[x] == if x in s then 1 else 0
  {
    if s != [] {
      assert s == [s[0]] + s[1..];
      DistinctCounts(s[1..], x);
    }
  }

  lemma SameElements<T>(a: seq<T>, b: seq<T>)
    requires Distinct(a) && Distinct(b) && Elements(a) == Elements(b)
    ensures multiset(a) == multiset(b)
  {
    forall x | x in multiset(a) + multiset(b) ensures multiset(a)[x] == multiset(b)[x] {
      DistinctCounts(a, x);
      DistinctCounts(b, x);
      assert x in Elements(a) <==> x in Elements(b);
    }
  }

  predicate UniqueBy<T, K(==)>(s: seq<T>, key: T -> K) {
    forall i, j :: 0 <= i < j < |s| ==> key(s[i]) != key(s[j])
  }

  lemma {:induction false} FilterKeepsUnique<T(!new), K>(s: seq<T>, p: T -> bool, key: T -> K)
    requires UniqueBy(s, key)
    ensures UniqueBy(Filter(s, p), key)
  {
    if s != [] {
      FilterKeepsUnique(s[1..], p, key);
      var rest := Filter(s[1..], p);
      forall j | 0 <= j < |rest| ensures key(rest[j]) != key(s[0]) {
        assert rest[j] in s[1..];
        var i :| 0 <= i < |s[1..]| && s[1..][i] == rest[j];
        assert s[i + 1] == rest[j];
      }
    }
  }

  /** Filtering a table keeps a unique key unique. */
  lemma FilterKeepsKeys<T(!new), K>(s: seq<T>, p: T -> bool, key: T -> K)
    requires Distinct(Map(s, key))
    ensures Distinct(Map(Filter(s, p), key))
  {
    assert forall i :: 0 <= i < |s| ==> key(s[i]) == Map(s, key)[i];
    FilterKeepsUnique(s, p, key);
  }

  // ---------- The first row of an order ----------

  /** ORDER BY ... LIMIT 1. */
  function First<T>(rows: seq<T>, before: (T, T) -> bool): Option<T> {
    if rows == [] then None
    else
      var rest := First(rows[1..], before);
      if rest.Some? && before(rest.value, rows[0]) then rest else Some(rows[0])
  }

  /** If the order decides between any two rows, the first row comes before all others. */
  lemma {:induction false} FirstIsBefore<T(!new)>(rows: seq<T>, before: (T, T) -> bool)
    requires forall i, j :: 0 <= i < j < |rows| ==> before(rows[i], rows[j]) || before(rows[j], rows[i])
    requires forall a, b, c :: a in rows && b in rows && c in rows && before(a, b) && before(b, c) ==> before(a, c)
    ensures First(rows, before).None? <==> rows == []
    ensures First(rows, before).Some? ==> First(rows, before).value in rows
    ensures forall x :: x in rows && x != First(rows, before).value ==> before(First(rows, before).value, x)
  {
    if rows != [] {
      var head, tail := rows[0], rows[1..];
      assert rows == [head] + tail;
      FirstIsBefore(tail, before);
      var rest := First(tail, before);
      if rest.Some? {
        var i :| 0 <= i < |tail| && tail[i] == rest.value;
        assert rows[i + 1] == rest.value;
      }
    }
  }

  // ---------- Runs ----------

  /** In every state of a run: after each of its prefixes. */
  ghost predicate Always<T(!new)>(run: seq<T>, p: seq<T> -> bool) {
    forall k :: 0 <= k <= |run| ==> p(run[..k])
  }

  /** At every step of a run, taken after the steps before it. */
  ghost predicate AtEachStep<T(!new)>(run: seq<T>, q: (seq<T>, T) -> bool) {
    forall i :: 0 <= i < |run| ==> q(run[..i], run[i])
  }

  lemma AlwaysSnoc<T(!new)>(run: seq<T>, p: seq<T> -> bool)
    requires run != []
    ensures Always(run, p) <==> Always(run[..|run| - 1], p) && p(run)
  {
    var init := run[..|run| - 1];
    assert run[..|run|] == run;
    assert forall k :: 0 <= k <= |init| ==> init[..k] == run[..k];
  }

  lemma AtEachStepSnoc<T(!new)>(run: seq<T>, q: (seq<T>, T) -> bool)
    requires run != []
    ensures AtEachStep(run, q) <==> AtEachStep(run[..|run| - 1], q) && q(run[..|run| - 1], run[|run| - 1])
  {
    var init := run[..|run| - 1];
    assert forall k :: 0 <= k <= |init| ==> init[..k] == run[..k];
  }

  /** If a step keeps p exactly when it is q, p holds throughout a run exactly when every step is q. */
  lemma {:induction false} AlwaysExactlyWhen<T(!new)>(run: seq<T>, p: seq<T> -> bool, q: (seq<T>, T) -> bool)
    requires p([])
    requires forall k :: 0 <= k < |run| && p(run[..k]) ==> (p(run[..k + 1]) <==> q(run[..k], run[k]))
    ensures Always(run, p) <==> AtEachStep(run, q)
    decreases |run|
  {
    if run != [] {
      var n := |run| - 1;
      var init := run[..n];
      assert run[..n + 1] == run;
      forall k | 0 <= k < n && p(init[..k]) ensures p(init[..k + 1]) <==> q(init[..k], init[k]) {
        assert init[..k] == run[..k] && init[..k + 1] == run[..k + 1];
      }
      AlwaysExactlyWhen(init, p, q);
      AlwaysSnoc(run, p);
      AtEachStepSnoc(run, q);
      assert init[..n] == init;
    }
  }

  predicate Keeps(holds: int -> bool, k: int) {
    holds(k) ==> holds(k + 1)
  }

  /** What every step keeps holds from then on. */
  lemma {:induction false} Kept(holds: int -> bool, k: nat, i: nat)
    requires k <= i && holds(k) && forall j :: k <= j < i ==> Keeps(holds, j)
    ensures holds(i)
    decreases i
  {
    if k < i {
      Kept(holds, k, i - 1);
      assert Keeps(holds, i - 1);
    }
  }

  predicate Adds(holds: int -> bool, starts: int -> bool, k: int) {
    holds(k + 1) <==> holds(k) || starts(k)
  }

  /** What no step ends holds exactly when some step started it. */
  lemma {:induction false} HoldsOnceStarted(holds: int -> bool, starts: int -> bool, i: nat)
    requires !holds(0) && forall k :: 0 <= k < i ==> Adds(holds, starts, k)
    ensures holds(i) <==> exists k :: 0 <= k < i && starts(k)
  {
    if i > 0 {
      HoldsOnceStarted(holds, starts, i - 1);
      assert Adds(holds, starts, i - 1);
    }
  }

  /** No step from k on and before i ends what holds. */
  predicate Unended(ends: int -> bool, k: int, i: int) {
    forall j :: k <= j < i ==> !ends(j)
  }

  predicate Turns(holds: int -> bool, ends: int -> bool, starts: int -> bool, k: int) {
    holds(k + 1) <==> (holds(k) && !ends(k)) || starts(k)
  }

  /** What each step ends, keeps or starts holds exactly when it held or was started, and no later step ended it. */
  lemma {:induction false} HoldsSince(holds: int -> bool, ends: int -> bool, starts: int -> bool, i: nat)
    requires forall k :: 0 <= k < i ==> Turns(holds, ends, starts, k)
    ensures holds(i) <==>
            (holds(0) && Unended(ends, 0, i)) || exists k :: 0 <= k < i && starts(k) && Unended(ends, k + 1, i)
  {
    if i > 0 {
      var n := i - 1;
      HoldsSince(holds, ends, starts, n);
      assert Turns(holds, ends, starts, n);
      assert forall k :: 0 <= k <= n ==> (Unended(ends, k, i) <==> Unended(ends, k, n) && !ends(n));
      assert Unended(ends, i, i);
      if starts(n) {
        assert starts(n) && Unended(ends, n + 1, i);
      }
      if k :| 0 <= k < n && starts(k) && Unended(ends, k + 1, n) {
        assert !ends(n) ==> Unended(ends, k + 1, i);
      }
    }
  }
}

/** Joins and groupings of table rows, and what they do to sums. */
module Joins {
  import opened Common
  import opened Lists

  function Pairs<A, B>(x: A, ys: seq<B>): seq<(A, Option<B>)> {
    if ys == [] then [] else [(x, Some(ys[0]))] + Pairs(x, ys[1..])
  }

  function Partner<A, B>(on: (A, B) -> bool, x: A): B -> bool {
    y => on(x, y)
  }

  /** a LEFT JOIN b ON on: a row without a match is kept, paired with NULL. */
  function LeftJoin<A, B(!new)>(a: seq<A>, b: seq<B>, on: (A, B) -> bool): seq<(A, Option<B>)> {
    if a == [] then []
    else
      var ys := Filter(b, Partner(on, a[0]));
      (if ys == [] then [(a[0], None)] else Pairs(a[0], ys)) + LeftJoin(a[1..], b, on)
  }

  lemma {:induction false} RowsOfPairs<A(!new), B(!new)>(x: A, ys: seq<B>, r: (A, Option<B>))
    ensures r in Pairs(x, ys) <==> r.0 == x && r.1.Some? && r.1.value in ys
  {
    if ys != [] {
      RowsOfPairs(x, ys[1..], r);
      assert ys == [ys[0]] + ys[1..];
    }
  }

  /** Exactly the rows of a left join. */
  lemma {:induction false} RowsOfLeftJoin<A(!new), B(!new)>(a: seq<A>, b: seq<B>, on: (A, B) -> bool, r: (A, Option<B>))
    ensures r in LeftJoin(a, b, on) <==>
            r.0 in a && if r.1.Some? then r.1.value in b && on(r.0, r.1.value) else forall y :: y in b ==> !on(r.0, y)
  {
    if a != [] {
      RowsOfLeftJoin(a[1..], b, on, r);
      var ys := Filter(b, Partner(on, a[0]));
      RowsOfPairs(a[0], ys, r);
      assert a == [a[0]] + a[1..];
      if ys != [] {
        assert ys[0] in ys;
      } else {
        assert forall y :: y in b ==> Partner(on, a[0])(y) == on(a[0], y);
        assert forall y :: y in b ==> y !in ys;
      }
    }
  }

  lemma {:induction false} SumOfPairs<A, B>(x: A, ys: seq<B>, f: ((A, Option<B>)) -> int, g: B -> int)
    requires forall y :: y in ys ==> g(y) == f((x, Some(y)))
    ensures Sum(Pairs(x, ys), f) == Sum(ys, g)
  {
    if ys != [] {
      assert Pairs(x, ys)[1..] == Pairs(x, ys[1..]);
      SumOfPairs(x, ys[1..], f, g);
    }
  }

  lemma {:induction false} SumOfFilter<T(!new)>(s: seq<T>, p: T -> bool, f: T -> int, g: T -> int)
    requires forall x :: x in s ==> g(x) == if p(x) then f(x) else 0
    ensures Sum(Filter(s, p), f) == Sum(s, g)
  {
    if s != [] {
      SumOfFilter(s[1..], p, f, g);
      if p(s[0]) {
        assert ([s[0]] + Filter(s[1..], p))[1..] == Filter(s[1..], p);
      }
    }
  }

  /** Counting rows is summing ones. */
  lemma {:induction false} CountIsSum<T(!new)>(s: seq<T>, p: T -> bool, one: T -> int)
    requires forall x :: x in s ==> one(x) == if p(x) then 1 else 0
    ensures |Filter(s, p)| == Sum(s, one)
  {
    if s != [] {
      CountIsSum(s[1..], p, one);
    }
  }

  /** The integrand of one left row: what its matches add up to. */
  function Matching<A, B>(x: A, on: (A, B) -> bool, f: ((A, Option<B>)) -> int): B -> int {
    y => if on(x, y) then f((x, Some(y))) else 0
  }

  /** If a NULL right side adds nothing, a left join sums row by row. */
  lemma {:induction false} SumOfLeftJoin<A(!new), B(!new)>(a: seq<A>, b: seq<B>, on: (A, B) -> bool,
                                                         f: ((A, Option<B>)) -> int, g: A -> int)
    requires forall x :: x in a ==> f((x, None)) == 0 && g(x) == Sum(b, Matching(x, on, f))
    ensures Sum(LeftJoin(a, b, on), f) == Sum(a, g)
  {
    if a != [] {
      var x := a[0];
      var ys := Filter(b, Partner(on, x));
      SumOfLeftJoin(a[1..], b, on, f, g);
      SumOfFilter(b, Partner(on, x), y => f((x, Some(y))), Matching(x, on, f));
      SumOfPairs(x, ys, f, y => f((x, Some(y))));
      SumAppend(if ys == [] then [(x, None)] else Pairs(x, ys), LeftJoin(a[1..], b, on), f);
    }
  }

  /** A left join sums row by row: its matches, or itself paired with NULL. */
  lemma {:induction false} SumOfLeftJoinRows<A(!new), B(!new)>(a: seq<A>, b: seq<B>, on: (A, B) -> bool,
                                                             f: ((A, Option<B>)) -> int, g: A -> int)
    requires forall x :: x in a ==>
      g(x) == if Filter(b, Partner(on, x)) == [] then f((x, None)) else Sum(b, Matching(x, on, f))
    ensures Sum(LeftJoin(a, b, on), f) == Sum(a, g)
  {
    if a != [] {
      var x := a[0];
      var ys := Filter(b, Partner(on, x));
      var here := if ys == [] then [(x, None)] else Pairs(x, ys);
      SumOfLeftJoinRows(a[1..], b, on, f, g);
      SumOfFilter(b, Partner(on, x), y => f((x, Some(y))), Matching(x, on, f));
      SumOfPairs(x, ys, f, y => f((x, Some(y))));
      SumAppend(here, LeftJoin(a[1..], b, on), f);
    }
  }

  /** A left join in which no row has two matches neither drops nor repeats a row. */
  lemma {:induction false} LeftJoinOnKey<A(!new), B(!new)>(a: seq<A>, b: seq<B>, on: (A, B) -> bool,
                                                         f: ((A, Option<B>)) -> int, g: A -> int)
    requires forall x :: x in a ==> |Filter(b, Partner(on, x))| <= 1
    requires forall x, y :: f((x, y)) == g(x)
    ensures Sum(LeftJoin(a, b, on), f) == Sum(a, g)
  {
    if a != [] {
      LeftJoinOnKey(a[1..], b, on, f, g);
      var ys := Filter(b, Partner(on, a[0]));
      if ys != [] {
        assert ys == [ys[0]];
        assert Pairs(a[0], ys) == [(a[0], Some(ys[0]))];
      }
      SumAppend(if ys == [] then [(a[0], None)] else Pairs(a[0], ys), LeftJoin(a[1..], b, on), f);
    }
  }

  lemma {:induction false} SumOfSum<T>(s: seq<T>, f: T -> int, g: T -> int, h: T -> int)
    requires forall x :: x in s ==> h(x) == f(x) + g(x)
    ensures Sum(s, h) == Sum(s, f) + Sum(s, g)
  {
    if s != [] {
      SumOfSum(s[1..], f, g, h);
    }
  }

  lemma {:induction false} SumOfZero<T>(s: seq<T>, f: T -> int)
    requires forall x :: x in s ==> f(x) == 0
    ensures Sum(s, f) == 0
  {
    if s != [] {
      SumOfZero(s[1..], f);
    }
  }

  function InRow<A, B>(h: (A, B) -> int, x: A): B -> int {
    y => h(x, y)
  }

  function InColumn<A, B>(h: (A, B) -> int, y: B): A -> int {
    x => h(x, y)
  }

  function RowSum<A, B>(b: seq<B>, h: (A, B) -> int): A -> int {
    x => Sum(b, InRow(h, x))
  }

  function ColumnSum<A, B>(a: seq<A>, h: (A, B) -> int): B -> int {
    y => Sum(a, InColumn(h, y))
  }

  /** A double sum may be taken rows first or columns first. */
  lemma {:induction false} SumSwap<A, B>(a: seq<A>, b: seq<B>, h: (A, B) -> int)
    ensures Sum(a, RowSum(b, h)) == Sum(b, ColumnSum(a, h))
  {
    if a == [] {
      SumOfZero(b, ColumnSum(a, h));
    } else {
      SumSwap(a[1..], b, h);
      SumOfSum(b, InRow(h, a[0]), ColumnSum(a[1..], h), ColumnSum(a, h));
    }
  }

  // ---------- GROUP BY ----------

  /** The distinct values of a column. */
  function DistinctOf<K(==,!new)>(ks: seq<K>): (r: seq<K>)
    ensures Distinct(r)
    ensures forall k :: k in r <==> k in ks
  {
    if ks == [] then []
    else
      var rest := DistinctOf(ks[1..]);
      if ks[0] in rest then rest else [ks[0]] + rest
  }

  function InGroup<T, K(==)>(key: T -> K, k: K, f: T -> int): T -> int {
    x => if key(x) == k then f(x) else 0
  }

  /** SUM(f) of the group of key k. */
  function GroupSum<T(!new), K(==)>(rows: seq<T>, key: T -> K, f: T -> int, k: K): int {
    Sum(Filter(rows, x => key(x) == k), f)
  }

  lemma GroupSumIs<T(!new), K>(rows: seq<T>, key: T -> K, f: T -> int, k: K)
    ensures GroupSum(rows, key, f, k) == Sum(rows, InGroup(key, k, f))
  {
    SumOfFilter(rows, x => key(x) == k, f, InGroup(key, k, f));
  }

  /** The rows of one key only: exactly one of a list of distinct keys is the key of x. */
  lemma {:induction false} OneKeyCounts<K(!new)>(ks: seq<K>, k: K, f: K -> int)
    requires Distinct(ks) && forall j :: j in ks && j != k ==> f(j) == 0
    ensures Sum(ks, f) == if k in ks then f(k) else 0
  {
    if ks != [] {
      assert Distinct(ks[1..]) by {
        assert forall i :: 0 <= i < |ks[1..]| ==> ks[1..][i] == ks[i + 1];
      }
      assert ks == [ks[0]] + ks[1..];
      if ks[0] == k {
        assert k !in ks[1..];
      }
      OneKeyCounts(ks[1..], k, f);
    }
  }
}
