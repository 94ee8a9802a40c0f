/** Sequence operations that mirror the JavaScript array methods the
    application composes its views from: `map`, `filter`, `find`,
    `slice(0, n)`, `new Set(...)` (order-preserving de-duplication),
    a stable `sort` and `reduce` summation. */
module Seqs {

  datatype Option<+T> = None | Some(value: T)

  /** Array.prototype.map */
  function Map<T, U>(s: seq<T>, f: T -> U): (r: seq<U>)
    ensures |r| == |s|
    ensures forall i :: 0 <= i < |s| ==> r[i] == f(s[i])
  {
    if s == [] then [] else [f(s[0])] + Map(s[1..], f)
  }

  /** Array.prototype.filter: keeps, in order, exactly the elements satisfying `p`. */
  function Filter<T(!new)>(s: seq<T>, p: T -> bool): (r: seq<T>)
    ensures |r| <= |s|
    ensures forall x :: x in r <==> x in s && p(x)
  {
    if s == [] then []
    else
      assert s == [s[0]] + s[1..];
      (if p(s[0]) then [s[0]] else []) + Filter(s[1..], p)
  }

  /** Filtering keeps every occurrence of a kept element and drops every
      occurrence of the others. */
  lemma {:induction false} FilterCounts<T(!new)>(s: seq<T>, p: T -> bool, x: T)
    ensures multiset(Filter(s, p))[x] == if p(x) then multiset(s)[x] else 0
  {
    if s != [] {
      assert s == [s[0]] + s[1..];
      FilterCounts(s[1..], p, x);
    }
  }

  /** Filtering distributes over concatenation: the kept elements stay in their original order. */
  lemma {:induction false} FilterConcat<T(!new)>(a: seq<T>, b: seq<T>, p: T -> bool)
    ensures Filter(a + b, p) == Filter(a, p) + Filter(b, p)
  {
    if a == [] {
      assert a + b == b;
    } else {
      assert (a + b)[0] == a[0] && (a + b)[1..] == a[1..] + b;
      FilterConcat(a[1..], b, p);
      var head := if p(a[0]) then [a[0]] else [];
      calc {
        Filter(a + b, p);
        head + Filter(a[1..] + b, p);
        head + (Filter(a[1..], p) + Filter(b, p));
        (head + Filter(a[1..], p)) + Filter(b, p);
      }
    }
  }

  /** A weaker predicate keeps at least as many elements. */
  lemma {:induction false} FilterWeaker<T(!new)>(s: seq<T>, p: T -> bool, q: T -> bool)
    requires forall x :: p(x) ==> q(x)
    ensures |Filter(s, p)| <= |Filter(s, q)|
  {
    if s != [] {
      FilterWeaker(s[1..], p, q);
    }
  }

  /** When every element satisfies `p`, filtering keeps the whole sequence. */
  lemma {:induction false} FilterAll<T(!new)>(s: seq<T>, p: T -> bool)
    requires forall i :: 0 <= i < |s| ==> p(s[i])
    ensures Filter(s, p) == s
  {
    if s != [] {
      FilterAll(s[1..], p);
    }
  }

  /** When no element satisfies `p`, filtering keeps nothing. */
  lemma {:induction false} FilterNone<T(!new)>(s: seq<T>, p: T -> bool)
    requires forall i :: 0 <= i < |s| ==> !p(s[i])
    ensures Filter(s, p) == []
  {
    if s != [] {
      FilterNone(s[1..], p);
    }
  }

  /** Counts of pairwise exclusive predicates add up to at most the length,
      and to exactly the length when every element satisfies one of them. */
  lemma {:induction false} FilterPartition3<T(!new)>(s: seq<T>, p: T -> bool, q: T -> bool, u: T -> bool)
    requires forall x :: !(p(x) && q(x)) && !(p(x) && u(x)) && !(q(x) && u(x))
    ensures |Filter(s, p)| + |Filter(s, q)| + |Filter(s, u)| <= |s|
    ensures (forall i :: 0 <= i < |s| ==> p(s[i]) || q(s[i]) || u(s[i]))
            ==> |Filter(s, p)| + |Filter(s, q)| + |Filter(s, u)| == |s|
  {
    if s != [] {
      FilterPartition3(s[1..], p, q, u);
    }
  }

  lemma FilterMultiset<T(!new)>(s: seq<T>, p: T -> bool)
    ensures forall x :: multiset(Filter(s, p))[x] == if p(x) then multiset(s)[x] else 0
  {
    forall x ensures multiset(Filter(s, p))[x] == if p(x) then multiset(s)[x] else 0 {
      FilterCounts(s, p, x);
    }
  }

  /** Array.prototype.slice(0, n) */
  function Take<T>(s: seq<T>, n: nat): (r: seq<T>)
    ensures |r| == if |s| <= n then |s| else n
    ensures r == s[..|r|]
  {
    if |s| <= n then s else s[..n]
  }

  /** The first n elements of a concatenation, read position by position. */
  lemma TakeConcat<T>(a: seq<T>, b: seq<T>, n: nat)
    ensures var r := Take(a + b, n);
            && (forall i :: 0 <= i < |r| && i < |a| ==> r[i] == a[i])
            && (forall i :: |a| <= i < |r| ==> r[i] == b[i - |a|])
  {
  }

  /** The index Array.prototype.findIndex would return, with |s| standing for "none". */
  function FirstIndex<T>(s: seq<T>, p: T -> bool): (k: nat)
    ensures k <= |s|
    ensures k < |s| ==> p(s[k])
    ensures forall j :: 0 <= j < k ==> !p(s[j])
  {
    if s == [] then 0
    else if p(s[0]) then 0
    else 1 + FirstIndex(s[1..], p)
  }

  /** Array.prototype.find: the first element satisfying `p`, if any. */
  function Find<T>(s: seq<T>, p: T -> bool): (r: Option<T>)
    ensures r.None? <==> forall i :: 0 <= i < |s| ==> !p(s[i])
    ensures r.Some? ==> p(r.value) && r.value == s[FirstIndex(s, p)]
  {
    var k := FirstIndex(s, p);
    if k < |s| then Some(s[k]) else None
  }

  predicate NoDuplicates<T(==)>(s: seq<T>) {
    forall i, j :: 0 <= i < j < |s| ==> s[i] != s[j]
  }

  /** `r` lists its elements in the order of their first occurrence in `s`:
      wherever `s` holds a later element of `r`, an earlier element of `r`
      has already occurred. */
  predicate InFirstSeenOrder<T(==)>(r: seq<T>, s: seq<T>) {
    forall i, j, k :: 0 <= i < j < |r| && 0 <= k < |s| && s[k] == r[j] ==> r[i] in s[..k]
  }

  /** Every element of `s` that `r` leaves out occurs only after every
      element of `r` has occurred. */
  predicate LeftOutOnlyLater<T(==)>(r: seq<T>, s: seq<T>) {
    forall i, k :: 0 <= i < |r| && 0 <= k < |s| && s[k] !in r ==> r[i] in s[..k]
  }

  /** `Array.from(new Set(s))`: the distinct elements of `s` in order of first occurrence. */
  function Dedup<T(==,!new)>(s: seq<T>): (r: seq<T>)
    ensures forall x :: x in r <==> x in s
    ensures NoDuplicates(r)
    ensures InFirstSeenOrder(r, s)
    ensures |r| <= |s|
  {
    if s == [] then []
    else
      var init, last := s[..|s| - 1], s[|s| - 1];
      var d := Dedup(init);
      assert s == init + [last];
      assert forall x :: x in s <==> x in init || x == last;
      AppendFirstSeen(d, init, last);
      if last in d then d else d + [last]
  }

  /** Appending `x` to `s` extends a first-seen listing of `s` by `x` when
      `x` is new. */
  lemma AppendFirstSeen<T>(d: seq<T>, s: seq<T>, x: T)
    requires InFirstSeenOrder(d, s) && (forall y :: y in d <==> y in s)
    ensures InFirstSeenOrder(if x in d then d else d + [x], s + [x])
  {
    var r, t := if x in d then d else d + [x], s + [x];
    forall i, j, k | 0 <= i < j < |r| && 0 <= k < |t| && t[k] == r[j] ensures r[i] in t[..k] {
      assert r[i] == d[i];
      if k < |s| {
        assert t[..k] == s[..k];
      } else {
        assert t[..k] == s;
      }
    }
  }

  /** The first n distinct elements, taken from a first-seen listing, are
      themselves in first-seen order, and every element left out first
      occurs after all of them. */
  lemma TakeDistinct<T>(s: seq<T>, d: seq<T>, n: nat)
    requires InFirstSeenOrder(d, s) && (forall y :: y in d <==> y in s)
    ensures InFirstSeenOrder(Take(d, n), s)
    ensures LeftOutOnlyLater(Take(d, n), s)
  {
    var r := Take(d, n);
    forall i, k | 0 <= i < |r| && 0 <= k < |s| && s[k] !in r ensures r[i] in s[..k] {
      assert s[k] in d;
      var j :| 0 <= j < |d| && d[j] == s[k];
      assert r[i] == d[i];
    }
  }

  /** `[...new Set(s)].slice(0, n)`: the first n distinct elements of s,
      in order of first appearance. Fewer than n means all of them; an
      element left out first appears after every element kept. */
  function FirstSeen<T(==,!new)>(s: seq<T>, n: nat): (r: seq<T>)
    ensures |r| <= n
    ensures NoDuplicates(r)
    ensures forall x :: x in r ==> x in s
    ensures |r| < n ==> forall x :: x in s ==> x in r
    ensures InFirstSeenOrder(r, s)
    ensures LeftOutOnlyLater(r, s)
  {
    var d := Dedup(s);
    TakeDistinct(s, d, n);
    var r := Take(d, n);
    assert forall x :: x in r ==> x in d;
    assert forall i, j :: 0 <= i < j < |r| ==> r[i] == d[i] && r[j] == d[j];
    r
  }

  /** Filtering a list without duplicates leaves one without duplicates. */
  lemma {:induction false} FilterDistinct<T(!new)>(s: seq<T>, p: T -> bool)
    requires NoDuplicates(s)
    ensures NoDuplicates(Filter(s, p))
  {
    if s != [] {
      assert NoDuplicates(s[1..]) by {
        forall i, j | 0 <= i < j < |s[1..]| ensures s[1..][i] != s[1..][j] {
          assert s[1..][i] == s[i + 1] && s[1..][j] == s[j + 1];
        }
      }
      FilterDistinct(s[1..], p);
      assert s[0] !in s[1..] by {
        forall i | 0 <= i < |s[1..]| ensures s[1..][i] != s[0] {
          assert s[1..][i] == s[i + 1];
        }
      }
    }
  }

  /** Sequences with the same multiset have the same members. */
  lemma SameMembers<T>(a: seq<T>, b: seq<T>)
    requires multiset(a) == multiset(b)
    ensures forall x :: x in a <==> x in b
  {
    forall x ensures x in a <==> x in b {
      assert x in a <==> x in multiset(a);
      assert x in b <==> x in multiset(b);
    }
  }

  /** An element that a prefix holds fewer times than the whole sequence
      occurs after the prefix. */
  lemma PrefixMissesLater<T>(s: seq<T>, k: nat, x: T)
    requires k <= |s| && multiset(s[..k])[x] < multiset(s)[x]
    ensures exists j :: k <= j < |s| && s[j] == x
  {
    assert s == s[..k] + s[k..];
    assert multiset(s) == multiset(s[..k]) + multiset(s[k..]);
    assert x in multiset(s[k..]);
    assert x in s[k..];
  }

  /** An element of a duplicate-free sequence occurs in it at most once. */
  lemma {:induction false} DistinctCount<T>(s: seq<T>, x: T)
    requires NoDuplicates(s)
    ensures multiset(s)[x] <= 1
  {
    if s != [] {
      assert s == [s[0]] + s[1..];
      assert s[0] !in s[1..];
      DistinctCount(s[1..], x);
    }
  }

  /** A reordering of a duplicate-free sequence has the same elements and
      no duplicates either. */
  lemma PermutationKeepsDistinct<T>(s: seq<T>, t: seq<T>)
    requires multiset(s) == multiset(t) && NoDuplicates(s)
    ensures NoDuplicates(t)
    ensures forall x :: x in t <==> x in s
  {
    forall x ensures x in t <==> x in s {
      assert x in t <==> x in multiset(t);
      assert x in s <==> x in multiset(s);
    }
    forall i, j | 0 <= i < j < |t| ensures t[i] != t[j] {
      if t[i] == t[j] {
        var x := t[i];
        assert t == t[..i] + [x] + t[i + 1..j] + [x] + t[j + 1..];
        assert multiset(t)[x] >= 2;
        DistinctCount(s, x);
      }
    }
  }

  /** `le` is total: any two elements can be compared. */
  ghost predicate Total<T(!new)>(le: (T, T) -> bool) {
    forall a, b :: le(a, b) || le(b, a)
  }

  /** `le` is transitive. */
  ghost predicate Transitive<T(!new)>(le: (T, T) -> bool) {
    forall a, b, c :: le(a, b) && le(b, c) ==> le(a, c)
  }

  ghost predicate SortedBy<T>(s: seq<T>, le: (T, T) -> bool) {
    forall i, j :: 0 <= i < j < |s| ==> le(s[i], s[j])
  }

  /** Inserts `x` before the first element it does not have to follow. */
  function Insert<T(!new)>(x: T, s: seq<T>, le: (T, T) -> bool): (r: seq<T>)
    requires Total(le) && Transitive(le) && SortedBy(s, le)
    ensures |r| == |s| + 1
    ensures multiset(r) == multiset(s) + multiset{x}
    ensures forall y :: y in r ==> y == x || y in s
    ensures SortedBy(r, le)
  {
    if s == [] || le(x, s[0]) then
      [x] + s
    else
      var rest := Insert(x, s[1..], le);
      assert s == [s[0]] + s[1..];
      assert forall y :: y in rest ==> le(s[0], y);
      [s[0]] + rest
  }

  /** Array.prototype.sort with comparator `le`: a stable insertion sort
      (an element is placed before every element that compares equal to it
      and came later in the input). */
  function SortBy<T(!new)>(s: seq<T>, le: (T, T) -> bool): (r: seq<T>)
    requires Total(le) && Transitive(le)
    ensures |r| == |s|
    ensures multiset(r) == multiset(s)
    ensures SortedBy(r, le)
  {
    if s == [] then []
    else
      assert s == [s[0]] + s[1..];
      Insert(s[0], SortBy(s[1..], le), le)
  }

  /** The elements `le` ranks level with `e`. */
  function LevelWith<T>(le: (T, T) -> bool, e: T): T -> bool {
    (y: T) => le(y, e) && le(e, y)
  }

  /** Two elements ranked level with the same `e` are ranked level with
      each other, so one that must follow the other is not level with `e`. */
  lemma LevelBoth<T(!new)>(le: (T, T) -> bool, e: T, x: T, y: T)
    requires Transitive(le) && !le(x, y)
    ensures !(LevelWith(le, e)(x) && LevelWith(le, e)(y))
  {
  }

  /** Filtering a list that starts with `h`. */
  lemma FilterCons<T(!new)>(h: T, t: seq<T>, p: T -> bool)
    ensures Filter([h] + t, p) == if p(h) then [h] + Filter(t, p) else Filter(t, p)
  {
    assert ([h] + t)[0] == h && ([h] + t)[1..] == t;
  }

  /** Moving `x` past an element `h` that the test cannot also keep leaves
      the filtered list unchanged. */
  lemma FilterPast<T(!new)>(x: T, h: T, t: seq<T>, rest: seq<T>, p: T -> bool)
    requires Filter(rest, p) == Filter([x] + t, p) && !(p(x) && p(h))
    ensures Filter([h] + rest, p) == Filter([x] + ([h] + t), p)
  {
    FilterCons(h, rest, p);
    FilterCons(x, t, p);
    FilterCons(h, t, p);
    FilterCons(x, [h] + t, p);
  }

  /** Insert places `x` before every element ranked level with it, so within
      each group of level elements the order is that of `[x] + s`. */
  lemma {:induction false} InsertStable<T(!new)>(x: T, s: seq<T>, le: (T, T) -> bool, e: T)
    requires Total(le) && Transitive(le) && SortedBy(s, le)
    ensures Filter(Insert(x, s, le), LevelWith(le, e)) == Filter([x] + s, LevelWith(le, e))
  {
    if !(s == [] || le(x, s[0])) {
      assert SortedBy(s[1..], le);
      InsertStable(x, s[1..], le, e);
      LevelBoth(le, e, x, s[0]);
      FilterPast(x, s[0], s[1..], Insert(x, s[1..], le), LevelWith(le, e));
      assert s == [s[0]] + s[1..];
    }
  }

  /** The sort is stable: within each group of elements `le` ranks level,
      the input order is kept. */
  lemma {:induction false} SortStable<T(!new)>(s: seq<T>, le: (T, T) -> bool, e: T)
    requires Total(le) && Transitive(le)
    ensures Filter(SortBy(s, le), LevelWith(le, e)) == Filter(s, LevelWith(le, e))
  {
    if s != [] {
      var p := LevelWith(le, e);
      SortStable(s[1..], le, e);
      InsertStable(s[0], SortBy(s[1..], le), le, e);
      assert ([s[0]] + SortBy(s[1..], le))[1..] == SortBy(s[1..], le);
    }
  }

  /** Array.prototype.reduce((a, x) => a + f(x), 0) */
  function Sum<T>(s: seq<T>, f: T -> int): int {
    if s == [] then 0 else f(s[0]) + Sum(s[1..], f)
  }

  lemma {:induction false} SumConcat<T>(a: seq<T>, b: seq<T>, f: T -> int)
    ensures Sum(a + b, f) == Sum(a, f) + Sum(b, f)
  {
    if a == [] {
      assert a + b == b;
    } else {
      assert (a + b)[0] == a[0] && (a + b)[1..] == a[1..] + b;
      SumConcat(a[1..], b, f);
    }
  }

  /** A sum of terms each within [lo, hi] lies within [n*lo, n*hi]. */
  lemma {:induction false} SumBounds<T>(s: seq<T>, f: T -> int, lo: int, hi: int)
    requires forall i :: 0 <= i < |s| ==> lo <= f(s[i]) <= hi
    ensures |s| * lo <= Sum(s, f) <= |s| * hi
  {
    if s != [] {
      SumBounds(s[1..], f, lo, hi);
    }
  }
}
