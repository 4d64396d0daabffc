/**
 * The array operations the reducers and pages use: `findIndex`/`find` by a
 * key, replacing the first match in place, `push`-or-replace, `filter`, and
 * `reduce` to a sum. Each is a function on sequences with the properties the
 * callers rely on proved once here.
 */
module Lists {

  import opened Wrappers

  // ---------------------------------------------------------------------
  // Search

  /** `s.findIndex(x => key(x) === k)`: the first index with that key, or -1. */
  function FindIndex<T, K(==)>(s: seq<T>, key: T -> K, k: K): (r: int)
    ensures -1 <= r < |s|
    ensures r >= 0 ==> key(s[r]) == k && forall j | 0 <= j < r :: key(s[j]) != k
    ensures r == -1 <==> forall j | 0 <= j < |s| :: key(s[j]) != k
  {
    if s == [] then -1
    else if key(s[0]) == k then 0
    else
      var r := FindIndex(s[1..], key, k);
      if r == -1 then -1 else r + 1
  }

  /** `s.find(x => key(x) === k)`. */
  function Find<T, K(==)>(s: seq<T>, key: T -> K, k: K): (r: Option<T>)
    ensures r.None? <==> forall j | 0 <= j < |s| :: key(s[j]) != k
    ensures r.Some? ==> r.value in s && key(r.value) == k
  {
    var i := FindIndex(s, key, k);
    if i == -1 then None else Some(s[i])
  }

  /** No element occurs twice. */
  predicate Distinct<T(==)>(s: seq<T>)
  {
    forall i, j | 0 <= i < j < |s| :: s[i] != s[j]
  }

  /** No two elements share a key (the ids of a list are unique). */
  predicate UniqueKeys<T, K(==)>(s: seq<T>, key: T -> K)
  {
    forall i, j | 0 <= i < j < |s| :: key(s[i]) != key(s[j])
  }

  // ---------------------------------------------------------------------
  // Update in place

  /** `const i = s.findIndex(...); if (i !== -1) s[i] = x;` */
  function ReplaceFirst<T, K(==)>(s: seq<T>, key: T -> K, k: K, x: T): seq<T>
  {
    var i := FindIndex(s, key, k);
    if i == -1 then s else s[i := x]
  }

  /** Replacing keeps the length, changes only the first element with the key, and is a no-op without one. */
  lemma ReplaceFirstSpec<T, K>(s: seq<T>, key: T -> K, k: K, x: T)
    ensures |ReplaceFirst(s, key, k, x)| == |s|
    ensures var i := FindIndex(s, key, k);
      forall j | 0 <= j < |s| :: ReplaceFirst(s, key, k, x)[j] == if j == i then x else s[j]
    ensures (forall j | 0 <= j < |s| :: key(s[j]) != k) ==> ReplaceFirst(s, key, k, x) == s
    ensures (exists j | 0 <= j < |s| :: key(s[j]) == k) ==> x in ReplaceFirst(s, key, k, x)
  {
    var i := FindIndex(s, key, k);
    if exists j | 0 <= j < |s| :: key(s[j]) == k {
      assert i >= 0;
      assert ReplaceFirst(s, key, k, x)[i] == x;
    }
  }

  /** Replacing an element by one with the same key keeps the keys unique. */
  lemma ReplaceFirstKeepsUnique<T, K>(s: seq<T>, key: T -> K, x: T)
    requires UniqueKeys(s, key)
    ensures UniqueKeys(ReplaceFirst(s, key, key(x), x), key)
    ensures forall j | 0 <= j < |s| :: key(ReplaceFirst(s, key, key(x), x)[j]) == key(s[j])
  {
  }

  /** Replace the first element with the key, or append when there is none. */
  function Upsert<T, K(==)>(s: seq<T>, key: T -> K, x: T): seq<T>
  {
    var i := FindIndex(s, key, key(x));
    if i == -1 then s + [x] else s[i := x]
  }

  /** Overwriting one element with one of the same key keeps keys unique. */
  lemma UpdateKeepsUnique<T, K>(s: seq<T>, key: T -> K, i: int, x: T)
    requires UniqueKeys(s, key) && 0 <= i < |s| && key(x) == key(s[i])
    ensures UniqueKeys(s[i := x], key)
  {
    var r := s[i := x];
    forall a, b | 0 <= a < b < |r| ensures key(r[a]) != key(r[b]) {
      assert key(r[a]) == key(s[a]) && key(r[b]) == key(s[b]);
    }
  }

  /** After an upsert the element is present, the length grows by at most one, and keys stay unique. */
  lemma {:induction false} UpsertSpec<T, K>(s: seq<T>, key: T -> K, x: T)
    ensures x in Upsert(s, key, x)
    ensures |Upsert(s, key, x)| == if exists j | 0 <= j < |s| :: key(s[j]) == key(x) then |s| else |s| + 1
    ensures UniqueKeys(s, key) ==> UniqueKeys(Upsert(s, key, x), key)
    ensures Find(Upsert(s, key, x), key, key(x)) == Some(x)
  {
    var i := FindIndex(s, key, key(x));
    var r := Upsert(s, key, x);
    if i == -1 {
      assert r[|s|] == x;
      assert FindIndex(r, key, key(x)) == |s| by {
        FindIndexAppend(s, [x], key, key(x));
      }
    } else {
      assert r[i] == x;
      assert forall j | 0 <= j < i :: r[j] == s[j];
      FindIndexChar(r, key, key(x), i);
    }
  }

  /** An index with the key before which no element has it is the one `FindIndex` returns. */
  lemma FindIndexChar<T, K>(s: seq<T>, key: T -> K, k: K, i: int)
    requires 0 <= i < |s| && key(s[i]) == k
    requires forall j | 0 <= j < i :: key(s[j]) != k
    ensures FindIndex(s, key, k) == i
  {
  }

  lemma FindIndexAppend<T, K>(a: seq<T>, b: seq<T>, key: T -> K, k: K)
    requires forall j | 0 <= j < |a| :: key(a[j]) != k
    ensures FindIndex(a + b, key, k) == if FindIndex(b, key, k) == -1 then -1 else |a| + FindIndex(b, key, k)
  {
    var i := FindIndex(b, key, k);
    if i == -1 {
      assert forall j | 0 <= j < |a + b| :: key((a + b)[j]) != k by {
        forall j | 0 <= j < |a + b| ensures key((a + b)[j]) != k {
          if j >= |a| { assert (a + b)[j] == b[j - |a|]; }
        }
      }
    } else {
      assert (a + b)[|a| + i] == b[i];
      forall j | 0 <= j < |a| + i ensures key((a + b)[j]) != k {
        if j >= |a| { assert (a + b)[j] == b[j - |a|]; }
      }
      FindIndexChar(a + b, key, k, |a| + i);
    }
  }

  /** Adding an element whose key is new at the front keeps the keys unique. */
  lemma PrependKeepsUnique<T, K>(s: seq<T>, key: T -> K, x: T)
    ensures UniqueKeys(s, key) && Find(s, key, key(x)).None? ==> UniqueKeys([x] + s, key)
  {
    if UniqueKeys(s, key) && Find(s, key, key(x)).None? {
      forall i, j | 0 <= i < j < |[x] + s| ensures key(([x] + s)[i]) != key(([x] + s)[j]) {
        assert ([x] + s)[j] == s[j - 1];
        if i > 0 { assert ([x] + s)[i] == s[i - 1]; }
      }
    }
  }

  /** Adding an element whose key is new at the back keeps the keys unique. */
  lemma AppendKeepsUnique<T, K>(s: seq<T>, key: T -> K, x: T)
    ensures UniqueKeys(s, key) && Find(s, key, key(x)).None? ==> UniqueKeys(s + [x], key)
  {
    if UniqueKeys(s, key) && Find(s, key, key(x)).None? {
      forall i, j | 0 <= i < j < |s + [x]| ensures key((s + [x])[i]) != key((s + [x])[j]) {
        assert (s + [x])[i] == s[i];
        if j < |s| { assert (s + [x])[j] == s[j]; }
      }
    }
  }

  // ---------------------------------------------------------------------
  // Filter

  /** `s.filter(p)`. */
  function Filter<T>(s: seq<T>, p: T -> bool): (r: seq<T>)
    ensures |r| <= |s|
    ensures forall i | 0 <= i < |r| :: r[i] in s && p(r[i])
    ensures forall j | 0 <= j < |s| :: p(s[j]) ==> s[j] in r
  {
    if s == [] then []
    else Filter(s[..|s| - 1], p) + (if p(s[|s| - 1]) then [s[|s| - 1]] else [])
  }

  /** Filtering distributes over concatenation, so it keeps the relative order of what it keeps. */
  lemma {:induction false} FilterAppend<T>(a: seq<T>, b: seq<T>, p: T -> bool)
    ensures Filter(a + b, p) == Filter(a, p) + Filter(b, p)
  {
    if b == [] {
      assert a + b == a;
    } else {
      assert (a + b)[..|a + b| - 1] == a + b[..|b| - 1];
      FilterAppend(a, b[..|b| - 1], p);
    }
  }

  /** When every element passes, filtering changes nothing. */
  lemma {:induction false} FilterAll<T>(s: seq<T>, p: T -> bool)
    requires forall j | 0 <= j < |s| :: p(s[j])
    ensures Filter(s, p) == s
  {
    if s != [] {
      FilterAll(s[..|s| - 1], p);
    }
  }

  /** When no element passes, nothing is kept. */
  lemma {:induction false} FilterNone<T>(s: seq<T>, p: T -> bool)
    requires forall j | 0 <= j < |s| :: !p(s[j])
    ensures Filter(s, p) == []
  {
    if s != [] {
      FilterNone(s[..|s| - 1], p);
    }
  }

  /** Two complementary filters split a list: together they keep every element exactly once. */
  lemma {:induction false} FilterPartition<T>(s: seq<T>, p: T -> bool, q: T -> bool)
    requires forall j | 0 <= j < |s| :: p(s[j]) != q(s[j])
    ensures |Filter(s, p)| + |Filter(s, q)| == |s|
  {
    if s != [] {
      FilterPartition(s[..|s| - 1], p, q);
    }
  }

  /** Filtering keeps unique keys unique. */
  lemma {:induction false} FilterKeepsUnique<T, K>(s: seq<T>, p: T -> bool, key: T -> K)
    requires UniqueKeys(s, key)
    ensures UniqueKeys(Filter(s, p), key)
  {
    if s != [] {
      var init, last := s[..|s| - 1], s[|s| - 1];
      FilterKeepsUnique(init, p, key);
      var f := Filter(init, p);
      forall x | x in f ensures key(x) != key(last) {
        assert x in init;
        var i :| 0 <= i < |init| && init[i] == x;
        assert s[i] == x;
      }
    }
  }

  /** `s.filter(x => key(x) !== k)`. */
  function RemoveKey<T, K(==)>(s: seq<T>, key: T -> K, k: K): seq<T>
  {
    Filter(s, x => key(x) != k)
  }

  /** After removal no element has the key, every other element stays, and keys stay unique. */
  lemma RemoveKeySpec<T, K>(s: seq<T>, key: T -> K, k: K)
    ensures forall x :: x in RemoveKey(s, key, k) <==> x in s && key(x) != k
    ensures (forall j | 0 <= j < |s| :: key(s[j]) != k) ==> RemoveKey(s, key, k) == s
    ensures UniqueKeys(s, key) ==> UniqueKeys(RemoveKey(s, key, k), key)
  {
    if forall j | 0 <= j < |s| :: key(s[j]) != k {
      FilterAll(s, x => key(x) != k);
    }
    if UniqueKeys(s, key) {
      FilterKeepsUnique(s, x => key(x) != k, key);
    }
  }

  // ---------------------------------------------------------------------
  // Sums

  /** `s.reduce((sum, x) => sum + f(x), 0)`, read as exact arithmetic. */
  function SumOf<T>(s: seq<T>, f: T -> real): real
  {
    if s == [] then 0.0 else SumOf(s[..|s| - 1], f) + f(s[|s| - 1])
  }

  lemma {:induction false} SumAppend<T>(a: seq<T>, b: seq<T>, f: T -> real)
    ensures SumOf(a + b, f) == SumOf(a, f) + SumOf(b, f)
  {
    if b == [] {
      assert a + b == a;
    } else {
      assert (a + b)[..|a + b| - 1] == a + b[..|b| - 1];
      SumAppend(a, b[..|b| - 1], f);
    }
  }

  /** A sum of non-negative terms is non-negative. */
  lemma {:induction false} SumNonNegative<T>(s: seq<T>, f: T -> real)
    requires forall j | 0 <= j < |s| :: f(s[j]) >= 0.0
    ensures SumOf(s, f) >= 0.0
  {
    if s != [] {
      SumNonNegative(s[..|s| - 1], f);
    }
  }

  /** Dropping non-negative terms cannot increase a sum. */
  lemma {:induction false} SumFilterBound<T>(s: seq<T>, p: T -> bool, f: T -> real)
    requires forall j | 0 <= j < |s| :: f(s[j]) >= 0.0
    ensures SumOf(Filter(s, p), f) <= SumOf(s, f)
  {
    if s != [] {
      var init := s[..|s| - 1];
      SumFilterBound(init, p, f);
      if p(s[|s| - 1]) {
        SumAppend(Filter(init, p), [s[|s| - 1]], f);
      } else {
        assert Filter(s, p) == Filter(init, p);
      }
    }
  }

  /** Term-by-term smaller summands give a smaller sum. */
  lemma {:induction false} SumLe<T>(s: seq<T>, f: T -> real, g: T -> real)
    requires forall j | 0 <= j < |s| :: f(s[j]) <= g(s[j])
    ensures SumOf(s, f) <= SumOf(s, g)
  {
    if s != [] {
      SumLe(s[..|s| - 1], f, g);
    }
  }

  /** Replacing one element changes the sum by the difference of the two terms. */
  lemma {:induction false} SumUpdate<T>(s: seq<T>, k: int, x: T, f: T -> real)
    requires 0 <= k < |s|
    ensures SumOf(s[k := x], f) == SumOf(s, f) - f(s[k]) + f(x)
  {
    var init := s[..|s| - 1];
    if k == |s| - 1 {
      assert s[k := x][..|s| - 1] == init;
    } else {
      SumUpdate(init, k, x, f);
      assert s[k := x][..|s| - 1] == init[k := x];
    }
  }

  /** A filter by a conjunction is the second filter applied after the first. */
  lemma {:induction false} FilterConj<T>(s: seq<T>, p: T -> bool, q: T -> bool, pq: T -> bool)
    requires forall x :: pq(x) == (p(x) && q(x))
    ensures Filter(s, pq) == Filter(Filter(s, p), q)
  {
    if s != [] {
      var init, last := s[..|s| - 1], s[|s| - 1];
      FilterConj(init, p, q, pq);
      var f := Filter(init, p);
      if p(last) {
        assert Filter(s, p) == f + [last];
        assert (f + [last])[..|f + [last]| - 1] == f;
        assert Filter(f + [last], q) == Filter(f, q) + (if q(last) then [last] else []);
      } else {
        assert Filter(s, p) == f;
      }
    }
  }

  /** The sum over two complementary filters is the sum over the whole list. */
  lemma {:induction false} SumPartition<T>(s: seq<T>, p: T -> bool, q: T -> bool, f: T -> real)
    requires forall x :: p(x) != q(x)
    ensures SumOf(Filter(s, p), f) + SumOf(Filter(s, q), f) == SumOf(s, f)
  {
    if s != [] {
      var init, last := s[..|s| - 1], s[|s| - 1];
      SumPartition(init, p, q, f);
      if p(last) {
        SumAppend(Filter(init, p), [last], f);
        assert Filter(s, q) == Filter(init, q);
      } else {
        SumAppend(Filter(init, q), [last], f);
        assert Filter(s, p) == Filter(init, p);
      }
    }
  }

  /** An element is kept by a filter exactly when it is in the list and passes. */
  lemma FilterMember<T>(s: seq<T>, p: T -> bool, x: T)
    ensures x in Filter(s, p) <==> x in s && p(x)
  {
    if x in Filter(s, p) {
      var r := Filter(s, p);
      var i :| 0 <= i < |r| && r[i] == x;
    }
  }

  /** Filters by two tests that agree on every element of the list are the same. */
  lemma {:induction false} FilterExt<T>(s: seq<T>, p: T -> bool, q: T -> bool)
    requires forall j | 0 <= j < |s| :: p(s[j]) == q(s[j])
    ensures Filter(s, p) == Filter(s, q)
  {
    if s != [] {
      FilterExt(s[..|s| - 1], p, q);
    }
  }
}
