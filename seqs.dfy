/** Generic list operations: the filter / take / order-by steps of the store's queries. */
module Seqs {
  import opened Wrappers
  import opened Text

  /** The position of the first element satisfying `p` (SQL `WHERE p` read with `QueryRow`, Go's search loop). */
  function FindFirst<T>(s: seq<T>, p: T -> bool): (r: Option<nat>)
    ensures r.Some? ==> r.value < |s| && p(s[r.value]) && forall i :: 0 <= i < r.value ==> !p(s[i])
    ensures r.None? ==> forall i :: 0 <= i < |s| ==> !p(s[i])
    decreases |s|
  {
    if |s| == 0 then None
    else if p(s[0]) then Some(0)
    else match FindFirst(s[1..], p)
      case None => None
      case Some(k) => Some(k + 1)
  }

  /** SQL `LIMIT n` and Go's `s[:n]` guarded by a length check. */
  function Take<T>(s: seq<T>, n: int): (r: seq<T>)
    ensures |r| == if n <= 0 then 0 else if n < |s| then n else |s|
    ensures r == s[..|r|]
  {
    if n <= 0 then [] else if n < |s| then s[..n] else s
  }

  /** SQL `WHERE p`: the elements satisfying `p`, in their original order. */
  function Filter<T>(s: seq<T>, p: T -> bool): (r: seq<T>)
    ensures |r| <= |s|
    decreases |s|
  {
    if |s| == 0 then [] else (if p(s[0]) then [s[0]] else []) + Filter(s[1..], p)
  }

  /** The filter keeps only elements of `s` that satisfy `p`. */
  lemma {:induction false} FilterMembers<T>(s: seq<T>, p: T -> bool)
    ensures forall i :: 0 <= i < |Filter(s, p)| ==> Filter(s, p)[i] in s && p(Filter(s, p)[i])
    decreases |s|
  {
    if |s| > 0 {
      FilterMembers(s[1..], p);
      var r := Filter(s, p);
      var rest := Filter(s[1..], p);
      forall i | 0 <= i < |r| ensures r[i] in s && p(r[i]) {
        if !p(s[0]) || i > 0 {
          var j := if p(s[0]) then i - 1 else i;
          assert r[i] == rest[j];
        }
      }
    }
  }

  /** Every element the filter keeps is an element of `s`. */
  lemma FilterSubset<T>(s: seq<T>, p: T -> bool)
    ensures forall x :: x in Filter(s, p) ==> x in s
  {
    var r := Filter(s, p);
    FilterMembers(s, p);
    forall x | x in r ensures x in s {
      var i :| 0 <= i < |r| && r[i] == x;
    }
  }

  /** The prefix one longer is the prefix followed by the next element. */
  lemma PrefixStep<T>(s: seq<T>, i: nat)
    requires i < |s|
    ensures s[..i + 1] == s[..i] + [s[i]]
  {
  }

  /** The filter keeps every element of `s` that satisfies `p`. */
  lemma {:induction false} FilterKeeps<T>(s: seq<T>, p: T -> bool)
    ensures forall i :: 0 <= i < |s| && p(s[i]) ==> s[i] in Filter(s, p)
    decreases |s|
  {
    if |s| > 0 {
      FilterKeeps(s[1..], p);
      var r := Filter(s, p);
      forall i | 0 <= i < |s| && p(s[i]) ensures s[i] in r {
        if i > 0 {
          assert s[i] == s[1..][i - 1];
        }
      }
    }
  }

  lemma {:induction false} FilterConcat<T>(a: seq<T>, b: seq<T>, p: T -> bool)
    ensures Filter(a + b, p) == Filter(a, p) + Filter(b, p)
    decreases |a|
  {
    if |a| > 0 {
      assert (a + b)[1..] == a[1..] + b;
      FilterConcat(a[1..], b, p);
    } else {
      assert a + b == b;
    }
  }

  lemma {:induction false} FilterAll<T>(s: seq<T>, p: T -> bool)
    requires forall x :: x in s ==> p(x)
    ensures Filter(s, p) == s
    decreases |s|
  {
    if |s| > 0 {
      FilterAll(s[1..], p);
    }
  }

  lemma {:induction false} FilterNone<T>(s: seq<T>, p: T -> bool)
    requires forall x :: x in s ==> !p(x)
    ensures Filter(s, p) == []
    decreases |s|
  {
    if |s| > 0 {
      FilterNone(s[1..], p);
    }
  }

  /** Number of elements satisfying `p`. */
  function Count<T>(s: seq<T>, p: T -> bool): (n: nat)
    ensures n <= |s|
    decreases |s|
  {
    if |s| == 0 then 0 else (if p(s[0]) then 1 else 0) + Count(s[1..], p)
  }

  /** A one-element sequence counts 1 exactly when its element satisfies `p`. */
  lemma CountSingleton<T>(s: seq<T>, p: T -> bool)
    requires |s| == 1
    ensures Count(s, p) == if p(s[0]) then 1 else 0
  {
    assert s[1..] == [];
  }

  /** No element satisfies `p` exactly when none is counted. */
  lemma {:induction false} CountZero<T>(s: seq<T>, p: T -> bool)
    ensures Count(s, p) == 0 <==> forall i :: 0 <= i < |s| ==> !p(s[i])
    decreases |s|
  {
    if |s| > 0 {
      CountZero(s[1..], p);
      assert forall i :: 1 <= i < |s| ==> s[i] == s[1..][i - 1];
    }
  }

  lemma {:induction false} CountIsFilterLength<T>(s: seq<T>, p: T -> bool)
    ensures Count(s, p) == |Filter(s, p)|
    decreases |s|
  {
    if |s| > 0 {
      CountIsFilterLength(s[1..], p);
    }
  }

  /** Applies `f` to every element. */
  function Map<T, U>(f: T -> U, s: seq<T>): (r: seq<U>)
    ensures |r| == |s|
    ensures forall i :: 0 <= i < |s| ==> r[i] == f(s[i])
  {
    seq(|s|, i requires 0 <= i < |s| => f(s[i]))
  }

  /** An element of the mapped filter is the image of an element that passes the filter. */
  lemma MapFilterFrom<T, U>(f: T -> U, s: seq<T>, p: T -> bool, y: U) returns (x: T)
    requires y in Map(f, Filter(s, p))
    ensures x in s && y == f(x) && p(x)
  {
    var hits := Filter(s, p);
    var k :| 0 <= k < |hits| && Map(f, hits)[k] == y;
    FilterMembers(s, p);
    x := hits[k];
  }

  lemma {:induction false} MapConcat<T, U>(f: T -> U, a: seq<T>, b: seq<T>)
    ensures Map(f, a + b) == Map(f, a) + Map(f, b)
  {
    var l := Map(f, a + b);
    var r := Map(f, a) + Map(f, b);
    assert |l| == |r|;
    forall i | 0 <= i < |l| ensures l[i] == r[i] {
      if i < |a| {
        assert (a + b)[i] == a[i];
      } else {
        assert (a + b)[i] == b[i - |a|];
      }
    }
  }

  // ---------------------------------------------------------------------------
  // ORDER BY <text key> ASC, over rows whose keys are unique (a primary key)

  predicate UniqueKeys<T>(s: seq<T>, key: T -> string) {
    forall i, j :: 0 <= i < j < |s| ==> key(s[i]) != key(s[j])
  }

  /** Strictly ascending in `key`. */
  predicate SortedAsc<T>(s: seq<T>, key: T -> string) {
    forall i, j :: 0 <= i < j < |s| ==> Less(key(s[i]), key(s[j]))
  }

  function InsertAsc<T>(x: T, s: seq<T>, key: T -> string): (r: seq<T>)
    ensures multiset(r) == multiset(s) + multiset{x}
    decreases |s|
  {
    if |s| == 0 || Less(key(x), key(s[0])) then [x] + s
    else
      assert s == [s[0]] + s[1..];
      [s[0]] + InsertAsc(x, s[1..], key)
  }

  lemma {:induction false} InsertAscSorted<T>(x: T, s: seq<T>, key: T -> string)
    requires SortedAsc(s, key)
    requires forall i :: 0 <= i < |s| ==> key(s[i]) != key(x)
    ensures SortedAsc(InsertAsc(x, s, key), key)
    decreases |s|
  {
    if |s| == 0 {
    } else if Less(key(x), key(s[0])) {
      var r := [x] + s;
      forall i, j | 0 <= i < j < |r| ensures Less(key(r[i]), key(r[j])) {
        if i == 0 && j > 1 {
          LessTransitive(key(x), key(s[0]), key(s[j - 1]));
        }
      }
    } else {
      LessTotal(key(x), key(s[0]));
      InsertAscSorted(x, s[1..], key);
      var rest := InsertAsc(x, s[1..], key);
      forall j | 0 <= j < |rest| ensures Less(key(s[0]), key(rest[j])) {
        assert rest[j] in multiset(rest);
        if rest[j] != x {
          assert rest[j] in multiset(s[1..]);
          var k :| 0 <= k < |s[1..]| && s[1..][k] == rest[j];
          assert s[k + 1] == rest[j];
        }
      }
      var r := [s[0]] + rest;
      forall i, j | 0 <= i < j < |r| ensures Less(key(r[i]), key(r[j])) {
        if i == 0 {
          assert r[j] == rest[j - 1];
        } else {
          assert r[i] == rest[i - 1] && r[j] == rest[j - 1];
        }
      }
    }
  }

  /** Insertion sort by a text key. */
  function SortAsc<T>(s: seq<T>, key: T -> string): (r: seq<T>)
    ensures multiset(r) == multiset(s)
    decreases |s|
  {
    if |s| == 0 then [] else
      assert s == [s[0]] + s[1..];
      InsertAsc(s[0], SortAsc(s[1..], key), key)
  }

  /** Over a unique key the sort is strictly ascending. */
  lemma {:induction false} SortAscSorted<T>(s: seq<T>, key: T -> string)
    requires UniqueKeys(s, key)
    ensures SortedAsc(SortAsc(s, key), key)
    decreases |s|
  {
    if |s| > 0 {
      SortAscSorted(s[1..], key);
      var rest := SortAsc(s[1..], key);
      forall i | 0 <= i < |rest| ensures key(rest[i]) != key(s[0]) {
        assert rest[i] in multiset(rest);
        var k :| 0 <= k < |s[1..]| && s[1..][k] == rest[i];
        assert s[k + 1] == rest[i];
      }
      InsertAscSorted(s[0], rest, key);
    }
  }

  /** Filtering keeps a strictly ascending list strictly ascending. */
  lemma {:induction false} FilterSortedAsc<T>(s: seq<T>, key: T -> string, p: T -> bool)
    requires SortedAsc(s, key)
    ensures SortedAsc(Filter(s, p), key)
    decreases |s|
  {
    if |s| > 0 {
      FilterSortedAsc(s[1..], key, p);
      FilterMembers(s[1..], p);
      var rest := Filter(s[1..], p);
      forall i | 0 <= i < |rest| ensures Less(key(s[0]), key(rest[i])) {
        var k :| 0 <= k < |s[1..]| && s[1..][k] == rest[i];
        assert s[k + 1] == rest[i];
      }
      var r := Filter(s, p);
      if p(s[0]) {
        forall i, j | 0 <= i < j < |r| ensures Less(key(r[i]), key(r[j])) {
          if i == 0 {
            assert r[j] == rest[j - 1];
          } else {
            assert r[i] == rest[i - 1] && r[j] == rest[j - 1];
          }
        }
      }
    }
  }

  /** A prefix of an ascending list is ascending and made of the list's elements. */
  lemma TakeSortedAsc<T>(s: seq<T>, key: T -> string, n: int)
    requires SortedAsc(s, key)
    ensures SortedAsc(Take(s, n), key)
    ensures forall x :: x in Take(s, n) ==> x in s
  {
    var t := Take(s, n);
    forall x | x in t ensures x in s {
      var i :| 0 <= i < |t| && t[i] == x;
      assert s[i] == x;
    }
    forall i, j | 0 <= i < j < |t| ensures Less(key(t[i]), key(t[j])) {
      assert t[i] == s[i] && t[j] == s[j];
    }
  }

  predicate Distinct<T(==)>(s: seq<T>) {
    forall i, j :: 0 <= i < j < |s| ==> s[i] != s[j]
  }

  /** Filtering a list without repeats gives a list without repeats. */
  lemma {:induction false} FilterDistinct<T>(s: seq<T>, p: T -> bool)
    requires Distinct(s)
    ensures Distinct(Filter(s, p))
    decreases |s|
  {
    if |s| > 0 {
      FilterDistinct(s[1..], p);
      FilterMembers(s[1..], p);
      var rest := Filter(s[1..], p);
      forall i | 0 <= i < |rest| ensures rest[i] != s[0] {
        var k :| 0 <= k < |s[1..]| && s[1..][k] == rest[i];
        assert s[k + 1] == rest[i];
      }
      var r := Filter(s, p);
      if p(s[0]) {
        assert r == [s[0]] + rest;
        forall i, j | 0 <= i < j < |r| ensures r[i] != r[j] {
          if i == 0 {
            assert r[j] == rest[j - 1];
          } else {
            assert r[i] == rest[i - 1] && r[j] == rest[j - 1];
          }
        }
      } else {
        assert r == rest;
      }
    }
  }

  lemma FilterUniqueKeys<T>(s: seq<T>, key: T -> string, p: T -> bool)
    requires UniqueKeys(s, key)
    ensures UniqueKeys(Filter(s, p), key)
    decreases |s|
  {
    if |s| > 0 {
      FilterUniqueKeys(s[1..], key, p);
      FilterMembers(s[1..], p);
      var rest := Filter(s[1..], p);
      forall i | 0 <= i < |rest| ensures key(rest[i]) != key(s[0]) {
        var k :| 0 <= k < |s[1..]| && s[1..][k] == rest[i];
        assert s[k + 1] == rest[i];
      }
    }
  }

  // ---------------------------------------------------------------------------
  // ORDER BY <numeric key> DESC (ties keep their original order)

  predicate SortedDesc<T>(s: seq<T>, key: T -> real) {
    forall i, j :: 0 <= i < j < |s| ==> key(s[i]) >= key(s[j])
  }

  function InsertDesc<T>(x: T, s: seq<T>, key: T -> real): (r: seq<T>)
    ensures multiset(r) == multiset(s) + multiset{x}
    decreases |s|
  {
    if |s| == 0 || key(x) >= key(s[0]) then [x] + s
    else
      assert s == [s[0]] + s[1..];
      [s[0]] + InsertDesc(x, s[1..], key)
  }

  /** An element no lower than any element of a list sorted highest first can go in front of it. */
  lemma ConsSortedDesc<T>(h: T, s: seq<T>, key: T -> real)
    requires SortedDesc(s, key)
    requires forall y :: y in s ==> key(h) >= key(y)
    ensures SortedDesc([h] + s, key)
  {
    var r := [h] + s;
    forall i, j | 0 <= i < j < |r| ensures key(r[i]) >= key(r[j]) {
      assert r[j] == s[j - 1] && r[j] in s;
      if i > 0 {
        assert r[i] == s[i - 1];
      }
    }
  }

  /** The head of a list sorted highest first is no lower than any of its elements. */
  lemma HeadIsHighest<T>(s: seq<T>, key: T -> real)
    requires |s| > 0 && SortedDesc(s, key)
    ensures forall y :: y in s ==> key(s[0]) >= key(y)
  {
    forall y | y in s ensures key(s[0]) >= key(y) {
      var k :| 0 <= k < |s| && s[k] == y;
    }
  }

  /** Inserting into a list sorted highest first adds no element higher than both the new one and
      the list's bound. */
  lemma InsertDescBelow<T>(x: T, s: seq<T>, key: T -> real, bound: real)
    requires key(x) <= bound && forall y :: y in s ==> key(y) <= bound
    ensures forall y :: y in InsertDesc(x, s, key) ==> key(y) <= bound
  {
    var r := InsertDesc(x, s, key);
    forall y | y in r ensures key(y) <= bound {
      assert y in multiset(r);
      if y != x {
        assert y in multiset(s);
      }
    }
  }

  lemma {:induction false} InsertDescSorted<T>(x: T, s: seq<T>, key: T -> real)
    requires SortedDesc(s, key)
    ensures SortedDesc(InsertDesc(x, s, key), key)
    decreases |s|
  {
    if |s| == 0 {
    } else if key(x) >= key(s[0]) {
      HeadIsHighest(s, key);
      ConsSortedDesc(x, s, key);
    } else {
      InsertDescSorted(x, s[1..], key);
      HeadIsHighest(s, key);
      InsertDescBelow(x, s[1..], key, key(s[0]));
      ConsSortedDesc(s[0], InsertDesc(x, s[1..], key), key);
    }
  }

  /** A stable insertion sort, highest key first. */
  function SortDesc<T>(s: seq<T>, key: T -> real): (r: seq<T>)
    ensures multiset(r) == multiset(s)
    decreases |s|
  {
    if |s| == 0 then [] else
      assert s == [s[0]] + s[1..];
      InsertDesc(s[0], SortDesc(s[1..], key), key)
  }

  lemma {:induction false} SortDescSorted<T>(s: seq<T>, key: T -> real)
    ensures SortedDesc(SortDesc(s, key), key)
    decreases |s|
  {
    if |s| > 0 {
      SortDescSorted(s[1..], key);
      InsertDescSorted(s[0], SortDesc(s[1..], key), key);
    }
  }

  /** The first `n` of a list sorted highest first are at least as high as every element left out. */
  lemma TopIsMaximal<T>(sorted: seq<T>, key: T -> real, n: int, x: T)
    requires SortedDesc(sorted, key)
    requires x in sorted && x !in Take(sorted, n)
    ensures forall y :: y in Take(sorted, n) ==> key(y) >= key(x)
  {
    var j :| 0 <= j < |sorted| && sorted[j] == x;
    var t := Take(sorted, n);
    forall y | y in t ensures key(y) >= key(x) {
      var i :| 0 <= i < |t| && t[i] == y;
      assert sorted[i] == y;
    }
  }

  /** The first `n` after sorting highest first: as many as asked for, or all there are, and none
      of them lower than an element left out. */
  lemma TopSelection<T>(s: seq<T>, key: T -> real, n: int)
    ensures var r := Take(SortDesc(s, key), n);
            && |r| == (if n <= 0 then 0 else if n < |s| then n else |s|)
            && (forall x, y :: x in s && x !in r && y in r ==> key(y) >= key(x))
  {
    var sorted := SortDesc(s, key);
    SortDescSorted(s, key);
    assert |sorted| == |multiset(sorted)| == |multiset(s)| == |s|;
    forall x, y | x in s && x !in Take(sorted, n) && y in Take(sorted, n) ensures key(y) >= key(x) {
      assert x in multiset(s);
      TopIsMaximal(sorted, key, n, x);
    }
  }

  /** The first `n` of a list sorted highest first are sorted the same way and come from the list;
      when the list fits, they are all of it. */
  lemma TakeSortedDesc<T>(s: seq<T>, key: T -> real, n: int)
    requires SortedDesc(s, key)
    ensures SortedDesc(Take(s, n), key)
    ensures forall x :: x in Take(s, n) ==> x in s
    ensures |s| <= n ==> Take(s, n) == s
  {
    var t := Take(s, n);
    forall i, j | 0 <= i < j < |t| ensures key(t[i]) >= key(t[j]) {
      assert t[i] == s[i] && t[j] == s[j];
    }
    forall x | x in t ensures x in s {
      var i :| 0 <= i < |t| && t[i] == x;
      assert s[i] == x;
    }
  }

  /** Each of the top `n` of a mapped filter, sorted highest first, is the image of an element
      that passes the filter. */
  lemma TopFrom<T, U>(f: T -> U, s: seq<T>, p: T -> bool, key: U -> real, n: int, i: nat) returns (x: T)
    requires i < |Take(SortDesc(Map(f, Filter(s, p)), key), n)|
    ensures x in s && Take(SortDesc(Map(f, Filter(s, p)), key), n)[i] == f(x) && p(x)
  {
    var mapped := Map(f, Filter(s, p));
    var sorted := SortDesc(mapped, key);
    var y := Take(sorted, n)[i];
    assert y == sorted[i];
    assert y in multiset(sorted);
    assert y in mapped;
    x := MapFilterFrom(f, s, p, y);
  }
}
