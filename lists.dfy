/** Generic list operations with the meaning of JavaScript's array methods
    (`filter`, `find`, `map`, `sort`, `slice`), as the stores and pages use them. */
module Lists {

  datatype Option<T> = None | Some(value: T)

  function Min(a: int, b: int): int { if a <= b then a else b }

  /** `r` keeps some of the elements of `s`, in the order they have in `s`. */
  ghost predicate SubsequenceOf<T>(r: seq<T>, s: seq<T>)
    decreases |s|
  {
    r == [] || (s != [] && ((r[0] == s[0] && SubsequenceOf(r[1..], s[1..])) || SubsequenceOf(r, s[1..])))
  }

  /** `Array.prototype.filter`: the elements of `s` that satisfy `keep`, in order. */
  function Filter<T(!new)>(s: seq<T>, keep: T -> bool): (r: seq<T>)
    ensures |r| <= |s|
    ensures (forall i :: 0 <= i < |s| ==> keep(s[i])) ==> r == s
    decreases |s|
  {
    if s == [] then []
    else
      var tail := s[1..];
      assert forall i :: 0 <= i < |tail| ==> tail[i] == s[i + 1];
      assert s == [s[0]] + tail;
      if keep(s[0]) then [s[0]] + Filter(tail, keep) else Filter(tail, keep)
  }

  /** Filtering keeps every kept element as often as it occurs, and no other. */
  lemma {:induction false} FilterMultiset<T(!new)>(s: seq<T>, keep: T -> bool)
    ensures forall x :: multiset(Filter(s, keep))[x] == if keep(x) then multiset(s)[x] else 0
    decreases |s|
  {
    if s != [] {
      var tail := s[1..];
      FilterMultiset(tail, keep);
      assert s == [s[0]] + tail;
      assert multiset(s) == multiset{s[0]} + multiset(tail);
      if keep(s[0]) {
        assert multiset([s[0]] + Filter(tail, keep)) == multiset{s[0]} + multiset(Filter(tail, keep));
      }
    }
  }

  /** What `filter` returns are the elements of `s` that satisfy `keep`. */
  lemma FilterMembers<T(!new)>(s: seq<T>, keep: T -> bool)
    ensures forall x :: x in Filter(s, keep) <==> x in s && keep(x)
  {
    FilterMultiset(s, keep);
    forall x
      ensures x in Filter(s, keep) <==> x in s && keep(x)
    {
      assert x in Filter(s, keep) <==> multiset(Filter(s, keep))[x] > 0;
      assert x in s <==> multiset(s)[x] > 0;
    }
  }

  /** `filter` keeps the order of what it keeps. */
  lemma {:induction false} FilterSubsequence<T(!new)>(s: seq<T>, keep: T -> bool)
    ensures SubsequenceOf(Filter(s, keep), s)
    decreases |s|
  {
    if s != [] {
      var tail := s[1..];
      FilterSubsequence(tail, keep);
      var rest := Filter(tail, keep);
      if keep(s[0]) {
        var r := [s[0]] + rest;
        assert r[0] == s[0] && r[1..] == rest;
      }
    }
  }

  /** `filter(...).length`. */
  function Count<T(!new)>(s: seq<T>, keep: T -> bool): nat
  {
    |Filter(s, keep)|
  }

  /** Filtering distributes over concatenation: filter keeps the relative order of the elements. */
  lemma {:induction false} FilterAppend<T(!new)>(a: seq<T>, b: seq<T>, keep: T -> bool)
    ensures Filter(a + b, keep) == Filter(a, keep) + Filter(b, keep)
    decreases |a|
  {
    if a == [] {
      assert a + b == b;
    } else {
      var ab := a + b;
      assert ab[0] == a[0] && ab[1..] == a[1..] + b;
      FilterAppend(a[1..], b, keep);
    }
  }

  /** Filtering a list whose head is known: the head's fate, then the rest. */
  lemma FilterCons<T(!new)>(x: T, s: seq<T>, keep: T -> bool)
    ensures Filter([x] + s, keep) == (if keep(x) then [x] else []) + Filter(s, keep)
  {
    assert ([x] + s)[1..] == s;
  }

  /** Filtering the suffix from position `i`: the element at `i`, then the suffix after it. */
  lemma FilterFrom<T(!new)>(s: seq<T>, keep: T -> bool, i: nat)
    requires i < |s|
    ensures Filter(s[i..], keep) == (if keep(s[i]) then [s[i]] else []) + Filter(s[i + 1..], keep)
  {
    assert s[i..] == [s[i]] + s[i + 1..];
    FilterCons(s[i], s[i + 1..], keep);
  }

  /** Two filters can be applied in either order. */
  lemma {:induction false} FilterCommutes<T(!new)>(s: seq<T>, k1: T -> bool, k2: T -> bool)
    ensures Filter(Filter(s, k1), k2) == Filter(Filter(s, k2), k1)
    decreases |s|
  {
    if s != [] {
      FilterCommutes(s[1..], k1, k2);
      var a := Filter(s[1..], k1);
      var b := Filter(s[1..], k2);
      if k1(s[0]) {
        FilterCons(s[0], a, k2);
      }
      if k2(s[0]) {
        FilterCons(s[0], b, k1);
      }
    }
  }

  /** Filtering out exactly one element removes it and keeps the rest in place. */
  lemma {:induction false} FilterDropsOne<T(!new)>(s: seq<T>, keep: T -> bool, k: nat)
    requires k < |s| && !keep(s[k])
    requires forall i :: 0 <= i < |s| && i != k ==> keep(s[i])
    ensures Filter(s, keep) == s[..k] + s[k + 1..]
    decreases |s|
  {
    var tail := s[1..];
    assert s == [s[0]] + tail;
    FilterCons(s[0], tail, keep);
    assert forall i :: 0 <= i < |tail| ==> tail[i] == s[i + 1];
    if k > 0 {
      FilterDropsOne(tail, keep, k - 1);
      DropOneShift(s, k);
    } else {
      assert s[..k] + s[k + 1..] == tail;
    }
  }

  /** Removing position `k > 0` of `s` is keeping its head and removing position `k - 1` of its tail. */
  lemma DropOneShift<T>(s: seq<T>, k: nat)
    requires 0 < k < |s|
    ensures [s[0]] + (s[1..][..k - 1] + s[1..][k..]) == s[..k] + s[k + 1..]
  {
    assert [s[0]] + s[1..][..k - 1] == s[..k];
    assert s[1..][k..] == s[k + 1..];
  }

  /** Two tests that agree on every element filter alike. */
  lemma {:induction false} FilterSameTest<T(!new)>(s: seq<T>, k1: T -> bool, k2: T -> bool)
    requires forall x :: k1(x) == k2(x)
    ensures Filter(s, k1) == Filter(s, k2)
    decreases |s|
  {
    if s != [] {
      FilterSameTest(s[1..], k1, k2);
    }
  }

  function NameIs<T>(name: T -> string, f: string): T -> bool
  {
    (x: T) => name(x) == f
  }

  /** The status filter of the listing pages, `filter(x => f === 'all' || name(x) === f)`: the
      whole list for `"all"`, otherwise exactly the elements whose status name is `f`, in order. */
  function StatusFilter<T(!new)>(s: seq<T>, f: string, name: T -> string): (r: seq<T>)
    ensures f == "all" ==> r == s
    ensures f != "all" ==> (forall x :: x in r <==> x in s && name(x) == f) && SubsequenceOf(r, s)
  {
    if f == "all" then s
    else
      FilterMembers(s, NameIs(name, f));
      FilterSubsequence(s, NameIs(name, f));
      Filter(s, NameIs(name, f))
  }

  /** No two elements of `s` share a key. */
  ghost predicate DistinctBy<T, K>(s: seq<T>, key: T -> K)
  {
    forall i, j :: 0 <= i < j < |s| ==> key(s[i]) != key(s[j])
  }

  /** Filtering keeps keys distinct. */
  lemma {:induction false} FilterKeepsDistinct<T(!new), K>(s: seq<T>, keep: T -> bool, key: T -> K)
    requires DistinctBy(s, key)
    ensures DistinctBy(Filter(s, keep), key)
    decreases |s|
  {
    if s != [] {
      var tail := s[1..];
      assert forall i :: 0 <= i < |tail| ==> tail[i] == s[i + 1];
      FilterKeepsDistinct(tail, keep, key);
      var rest := Filter(tail, keep);
      if keep(s[0]) {
        FilterMembers(tail, keep);
        forall y | y in rest
          ensures key(y) != key(s[0])
        {
          var k :| 0 <= k < |tail| && tail[k] == y;
          assert y == s[k + 1];
        }
        DistinctCons(s[0], rest, key);
      }
    }
  }

  /** A new head whose key no element of `rest` has keeps the keys distinct. */
  lemma DistinctCons<T, K>(x: T, rest: seq<T>, key: T -> K)
    requires DistinctBy(rest, key)
    requires forall y :: y in rest ==> key(y) != key(x)
    ensures DistinctBy([x] + rest, key)
  {
    var r := [x] + rest;
    forall i, j | 0 <= i < j < |r|
      ensures key(r[i]) != key(r[j])
    {
      assert r[j] == rest[j - 1] && r[j] in rest;
      if i > 0 {
        assert r[i] == rest[i - 1];
      }
    }
  }

  /** Position of the first element satisfying `p` (the index behind `Array.prototype.find`), or -1. */
  function FindIndex<T>(s: seq<T>, p: T -> bool): (k: int)
    ensures -1 <= k < |s|
    ensures k >= 0 ==> p(s[k])
    ensures forall j :: 0 <= j < |s| && (k < 0 || j < k) ==> !p(s[j])
    decreases |s|
  {
    if s == [] then -1
    else if p(s[0]) then 0
    else
      var k := FindIndex(s[1..], p);
      if k < 0 then -1 else k + 1
  }

  /** `Array.prototype.find`: the first element satisfying `p`, if any. */
  function Find<T>(s: seq<T>, p: T -> bool): (r: Option<T>)
    ensures r.None? <==> forall i :: 0 <= i < |s| ==> !p(s[i])
    ensures r.Some? ==> exists k :: 0 <= k < |s| && s[k] == r.value && p(s[k]) && forall j :: 0 <= j < k ==> !p(s[j])
  {
    var k := FindIndex(s, p);
    if k < 0 then None else Some(s[k])
  }

  /** `Array.prototype.map` with a conditional: `f` is applied exactly to the selected elements. */
  function MapWhere<T>(s: seq<T>, sel: T -> bool, f: T -> T): (r: seq<T>)
    ensures |r| == |s|
    ensures forall i :: 0 <= i < |s| ==> r[i] == if sel(s[i]) then f(s[i]) else s[i]
    ensures (forall i :: 0 <= i < |s| ==> !sel(s[i])) ==> r == s
    decreases |s|
  {
    if s == [] then []
    else [if sel(s[0]) then f(s[0]) else s[0]] + MapWhere(s[1..], sel, f)
  }

  /** A map that never changes whether `p` holds leaves the first `p`-position where it was. */
  lemma {:induction false} FindIndexAfterMapWhere<T>(s: seq<T>, sel: T -> bool, f: T -> T, p: T -> bool)
    requires forall x :: p(f(x)) == p(x)
    ensures FindIndex(MapWhere(s, sel, f), p) == FindIndex(s, p)
    decreases |s|
  {
    if s != [] {
      FindIndexAfterMapWhere(s[1..], sel, f, p);
      assert MapWhere(s, sel, f)[1..] == MapWhere(s[1..], sel, f);
    }
  }

  /** Non-increasing by `key`: the order a comparator `(a, b) => key(b) - key(a)` sorts into. */
  predicate SortedDesc<T>(s: seq<T>, key: T -> int)
  {
    forall i, j :: 0 <= i < j < |s| ==> key(s[i]) >= key(s[j])
  }

  /** Inserts `x` in front of the first element that is not newer than it. */
  function Insert<T(!new)>(x: T, s: seq<T>, key: T -> int): (r: seq<T>)
    requires SortedDesc(s, key)
    ensures |r| == |s| + 1
    ensures multiset(r) == multiset(s) + multiset{x}
    ensures forall y :: y in r ==> y == x || y in s
    ensures SortedDesc(r, key)
    decreases |s|
  {
    if s == [] || key(s[0]) <= key(x) then
      InsertFront(x, s, key);
      [x] + s
    else
      var rest := Insert(x, s[1..], key);
      InsertBehind(x, s, key, rest);
      [s[0]] + rest
  }

  /** `x` goes first when it is at least as new as the head. */
  lemma InsertFront<T>(x: T, s: seq<T>, key: T -> int)
    requires SortedDesc(s, key) && (s == [] || key(s[0]) <= key(x))
    ensures SortedDesc([x] + s, key)
  {
    var r := [x] + s;
    forall i, j | 0 <= i < j < |r|
      ensures key(r[i]) >= key(r[j])
    {
      if i == 0 {
        assert key(s[0]) >= key(s[j - 1]);
      }
    }
  }

  /** Otherwise the head stays first, in front of `x` inserted into the tail. */
  lemma InsertBehind<T>(x: T, s: seq<T>, key: T -> int, rest: seq<T>)
    requires SortedDesc(s, key) && s != [] && key(s[0]) > key(x)
    requires multiset(rest) == multiset(s[1..]) + multiset{x}
    requires forall y :: y in rest ==> y == x || y in s[1..]
    requires SortedDesc(rest, key)
    ensures multiset([s[0]] + rest) == multiset(s) + multiset{x}
    ensures forall y :: y in [s[0]] + rest ==> y == x || y in s
    ensures SortedDesc([s[0]] + rest, key)
  {
    assert s == [s[0]] + s[1..];
    var r := [s[0]] + rest;
    forall j | 0 <= j < |rest|
      ensures key(rest[j]) <= key(s[0])
    {
      assert rest[j] in rest;
      if rest[j] != x {
        var i :| 0 <= i < |s[1..]| && s[1..][i] == rest[j];
        assert s[i + 1] == rest[j];
      }
    }
    forall i, j | 0 <= i < j < |r|
      ensures key(r[i]) >= key(r[j])
    {
      if i > 0 {
        assert r[i] == rest[i - 1] && r[j] == rest[j - 1];
      }
    }
  }

  /** A stable sort into non-increasing `key` order. */
  function SortDesc<T(!new)>(s: seq<T>, key: T -> int): (r: seq<T>)
    ensures |r| == |s|
    ensures multiset(r) == multiset(s)
    ensures SortedDesc(r, key)
    decreases |s|
  {
    if s == [] then []
    else
      assert s == [s[0]] + s[1..];
      Insert(s[0], SortDesc(s[1..], key), key)
  }

  /** `slice(0, n)` of a sorted permutation keeps the `n` greatest keys: everything left out has
      a key no greater than anything kept. */
  lemma TopOfSorted<T>(s: seq<T>, key: T -> int, n: nat)
    requires SortedDesc(s, key) && n <= |s|
    ensures SortedDesc(s[..n], key) && multiset(s[..n]) <= multiset(s)
    ensures forall x :: x in multiset(s) - multiset(s[..n]) ==> forall y :: y in s[..n] ==> key(x) <= key(y)
  {
    assert s == s[..n] + s[n..];
    assert multiset(s) == multiset(s[..n]) + multiset(s[n..]);
    forall x | x in multiset(s) - multiset(s[..n])
      ensures forall y :: y in s[..n] ==> key(x) <= key(y)
    {
      assert multiset(s) == multiset(s[..n]) + multiset(s[n..]);
      assert x in s[n..];
      var j :| 0 <= j < |s[n..]| && s[n..][j] == x;
      assert s[n + j] == x;
    }
  }

  /** `sort` by `key`, newest first, then `slice(0, n)`: at most `n` elements of `s`, newest
      first, and none left out is newer than one kept. */
  function Newest<T(!new)>(s: seq<T>, key: T -> int, n: nat): (r: seq<T>)
    ensures |r| == Min(n, |s|)
    ensures SortedDesc(r, key)
    ensures multiset(r) <= multiset(s)
    ensures forall x :: x in multiset(s) - multiset(r) ==> forall y :: y in r ==> key(x) <= key(y)
  {
    var sorted := SortDesc(s, key);
    var m := Min(n, |s|);
    TopOfSorted(sorted, key, m);
    sorted[..m]
  }
}
