/** The Python list operations the ranking code is built from: the stable
    `list.sort(key=..., reverse=True)` on a numeric key, `sorted()` on a
    string key, and prefix slicing `s[:n]`. */
module Lists {
  import opened Text

  /** `s[:n]`, where a negative `n` counts from the end. */
  function SlicePrefix<T>(s: seq<T>, n: int): (r: seq<T>)
    ensures 0 <= n ==> |r| == if n <= |s| then n else |s|
    ensures r <= s
  {
    if n >= 0 then (if n <= |s| then s[..n] else s)
    else if -n <= |s| then s[..|s| + n]
    else []
  }

  /** No element occurs twice. */
  predicate NoDup<T(==)>(s: seq<T>) {
    forall i, j :: 0 <= i < j < |s| ==> s[i] != s[j]
  }

  /** A list has no repeats exactly when it holds each element at most
      once. */
  lemma {:induction false} NoDupCount<T>(s: seq<T>)
    ensures NoDup(s) <==> forall x :: multiset(s)[x] <= 1
  {
    if |s| > 0 {
      var h, t := s[0], s[1..];
      NoDupCount(t);
      assert s == [h] + t;
      assert forall x :: multiset(s)[x] == multiset(t)[x] + (if x == h then 1 else 0);
      NoDupCons(s);
      if forall x :: multiset(s)[x] <= 1 {
        assert multiset(s)[h] <= 1;
        forall x ensures multiset(t)[x] <= 1 {
          assert multiset(s)[x] <= 1;
        }
      }
    }
  }

  lemma NoDupCons<T>(s: seq<T>)
    requires |s| > 0
    ensures NoDup(s) <==> s[0] !in s[1..] && NoDup(s[1..])
  {
    var h, t := s[0], s[1..];
    if NoDup(s) {
      forall j | 0 <= j < |t| ensures t[j] != h {
        assert t[j] == s[j + 1];
      }
      forall i, j | 0 <= i < j < |t| ensures t[i] != t[j] {
        assert t[i] == s[i + 1] && t[j] == s[j + 1];
      }
    }
    if h !in t && NoDup(t) {
      forall i, j | 0 <= i < j < |s| ensures s[i] != s[j] {
        assert s[j] == t[j - 1];
        if i > 0 {
          assert s[i] == t[i - 1];
        }
      }
    }
  }

  /** A permutation of a list without repeats has none. */
  lemma NoDupPermutation<T>(a: seq<T>, b: seq<T>)
    requires multiset(a) == multiset(b) && NoDup(a)
    ensures NoDup(b)
  {
    NoDupCount(a);
    NoDupCount(b);
  }

  /** Cutting one element out of a list without repeats leaves a list
      without repeats that lacks the element and holds only old ones. */
  lemma CutNoDup<T>(s: seq<T>, a: nat)
    requires a < |s| && NoDup(s)
    ensures NoDup(s[..a] + s[a + 1..])
    ensures s[a] !in s[..a] + s[a + 1..]
    ensures forall x :: x in s[..a] + s[a + 1..] ==> x in s
  {
    var r := s[..a] + s[a + 1..];
    forall i | 0 <= i < |r| ensures r[i] == s[if i < a then i else i + 1] {
    }
    forall i, j | 0 <= i < j < |r| ensures r[i] != r[j] {
      assert r[i] == s[if i < a then i else i + 1];
      assert r[j] == s[if j < a then j else j + 1];
    }
  }

  /** Putting a new element into a list without repeats keeps it without
      repeats. */
  lemma InsertNoDup<T>(s: seq<T>, idx: nat, x: T)
    requires idx <= |s| && NoDup(s) && x !in s
    ensures NoDup(s[..idx] + [x] + s[idx..])
  {
    var r := s[..idx] + [x] + s[idx..];
    forall i | 0 <= i < |r| && i != idx ensures r[i] == s[if i < idx then i else i - 1] {
    }
    forall i, j | 0 <= i < j < |r| ensures r[i] != r[j] {
      if i != idx && j != idx {
        assert r[i] == s[if i < idx then i else i - 1];
        assert r[j] == s[if j < idx then j else j - 1];
      } else if i == idx {
        assert r[j] == s[j - 1];
      } else {
        assert r[i] == s[i];
      }
    }
  }

  /** `a` is `b` with some elements left out, in the order of `b`. */
  predicate Subseq<T(==)>(a: seq<T>, b: seq<T>)
    decreases |b|
  {
    if |a| == 0 then true
    else if |b| == 0 then false
    else (a[0] == b[0] && Subseq(a[1..], b[1..])) || Subseq(a, b[1..])
  }

  /** A list comprehension with a condition, `[x for x in s if p(x)]`, and
      JavaScript's `s.filter(p)`. */
  function Filter<T(==)>(s: seq<T>, p: T -> bool): (r: seq<T>)
    ensures |r| <= |s|
    ensures forall i :: 0 <= i < |r| ==> r[i] in s && p(r[i])
    ensures forall i :: 0 <= i < |s| && p(s[i]) ==> s[i] in r
    ensures Subseq(r, s)
  {
    if |s| == 0 then []
    else
      var rest := Filter(s[1..], p);
      assert forall i :: 0 < i < |s| ==> s[i] == s[1..][i - 1];
      if p(s[0]) then
        assert ([s[0]] + rest)[1..] == rest;
        [s[0]] + rest
      else rest
  }

  /** The kept elements, counted: each element that satisfies the
      condition as often as in `s`, and no other. */
  lemma {:induction false} FilterMultiset<T>(s: seq<T>, p: T -> bool)
    ensures forall x :: multiset(Filter(s, p))[x] == if p(x) then multiset(s)[x] else 0
  {
    if |s| > 0 {
      FilterMultiset(s[1..], p);
      assert s == [s[0]] + s[1..];
      var rest := Filter(s[1..], p);
      if p(s[0]) {
        assert Filter(s, p) == [s[0]] + rest;
      }
    }
  }

  /** Filtering a list without duplicates leaves none. */
  lemma {:induction false} FilterNoDup<T>(s: seq<T>, p: T -> bool)
    requires NoDup(s)
    ensures NoDup(Filter(s, p))
  {
    if |s| > 0 {
      FilterNoDup(s[1..], p);
      var rest := Filter(s[1..], p);
      assert s[0] !in s[1..];
      assert s[0] !in rest;
    }
  }

  /** No two elements share a key. */
  predicate DistinctBy<T, K(==)>(s: seq<T>, key: T -> K) {
    forall i, j :: 0 <= i < j < |s| ==> key(s[i]) != key(s[j])
  }

  /** Filtering a list whose keys are distinct leaves distinct keys. */
  lemma {:induction false} FilterDistinctBy<T, K>(s: seq<T>, p: T -> bool, key: T -> K)
    requires DistinctBy(s, key)
    ensures DistinctBy(Filter(s, p), key)
  {
    if |s| > 0 {
      var tail := s[1..];
      DistinctByTail(s, key);
      FilterDistinctBy(tail, p, key);
      var rest := Filter(tail, p);
      if p(s[0]) {
        forall i | 0 <= i < |rest| ensures key(rest[i]) != key(s[0]) {
          var j :| 0 <= j < |tail| && tail[j] == rest[i];
          assert s[j + 1] == rest[i];
        }
        DistinctByCons(s[0], rest, key);
        assert Filter(s, p) == [s[0]] + rest;
      } else {
        assert Filter(s, p) == rest;
      }
    }
  }

  lemma DistinctByTail<T, K>(s: seq<T>, key: T -> K)
    requires |s| > 0 && DistinctBy(s, key)
    ensures DistinctBy(s[1..], key)
  {
    var tail := s[1..];
    forall i, j | 0 <= i < j < |tail| ensures key(tail[i]) != key(tail[j]) {
      assert tail[i] == s[i + 1] && tail[j] == s[j + 1];
    }
  }

  lemma DistinctByCons<T, K>(x: T, s: seq<T>, key: T -> K)
    requires DistinctBy(s, key)
    requires forall i :: 0 <= i < |s| ==> key(s[i]) != key(x)
    ensures DistinctBy([x] + s, key)
  {
    var r := [x] + s;
    forall i, j | 0 <= i < j < |r| ensures key(r[i]) != key(r[j]) {
      assert r[j] == s[j - 1];
      if i > 0 {
        assert r[i] == s[i - 1];
      }
    }
  }

  /** A filter that keeps nothing found no element satisfying its
      condition. */
  lemma FilterEmpty<T>(s: seq<T>, p: T -> bool)
    requires Filter(s, p) == []
    ensures forall i :: 0 <= i < |s| ==> !p(s[i])
  {
  }

  /** A filter whose condition holds everywhere keeps everything. */
  lemma {:induction false} FilterAll<T>(s: seq<T>, p: T -> bool)
    requires forall i :: 0 <= i < |s| ==> p(s[i])
    ensures Filter(s, p) == s
  {
    if |s| > 0 {
      assert forall i :: 0 < i < |s| ==> s[i] == s[1..][i - 1];
      FilterAll(s[1..], p);
    }
  }

  /** A filter whose condition holds nowhere keeps nothing. */
  lemma FilterNone<T>(s: seq<T>, p: T -> bool)
    requires forall i :: 0 <= i < |s| ==> !p(s[i])
    ensures Filter(s, p) == []
  {
  }

  // ---------------------------------------------------------------------
  // Stable sort, descending by a real key

  /** `[f(x) for x in s]` */
  function Map<A, B>(s: seq<A>, f: A -> B): (r: seq<B>)
    ensures |r| == |s|
  {
    if |s| == 0 then [] else [f(s[0])] + Map(s[1..], f)
  }

  /** Concatenation is associative; stated on a type parameter so that the
      proof does not look inside the elements. */
  lemma AppendAssoc<T>(a: seq<T>, b: seq<T>, c: seq<T>)
    ensures (a + b) + c == a + (b + c)
  {
  }

  lemma {:induction false} MapAt<A, B>(s: seq<A>, f: A -> B)
    ensures forall i :: 0 <= i < |s| ==> Map(s, f)[i] == f(s[i])
  {
    if |s| > 0 {
      MapAt(s[1..], f);
    }
  }

  lemma {:induction false} MapAppend<A, B>(a: seq<A>, b: seq<A>, f: A -> B)
    ensures Map(a + b, f) == Map(a, f) + Map(b, f)
  {
    if |a| == 0 {
      assert a + b == b;
    } else {
      assert (a + b)[1..] == a[1..] + b;
      MapAppend(a[1..], b, f);
    }
  }

  lemma MapRemove<A, B>(b: seq<A>, k: nat, f: A -> B)
    requires k < |b|
    ensures multiset(Map(b, f)) == multiset(Map(b[..k] + b[k + 1..], f)) + multiset{f(b[k])}
  {
    var m := Map(b, f);
    MapSkip(b, k, f);
    MapAt(b, f);
    MultisetSplit(m, k);
  }

  lemma MapSkip<A, B>(b: seq<A>, k: nat, f: A -> B)
    requires k < |b|
    ensures Map(b[..k] + b[k + 1..], f) == Map(b, f)[..k] + Map(b, f)[k + 1..]
  {
    var c := b[..k] + b[k + 1..];
    var m, r := Map(b, f), Map(c, f);
    MapAt(b, f);
    MapAt(c, f);
    assert forall i :: 0 <= i < k ==> r[i] == m[i];
    assert forall i :: k <= i < |r| ==> r[i] == m[i + 1];
  }

  lemma MultisetSplit<T>(m: seq<T>, k: nat)
    requires k < |m|
    ensures multiset(m) == multiset(m[..k] + m[k + 1..]) + multiset{m[k]}
  {
    assert m == m[..k] + [m[k]] + m[k + 1..];
  }

  lemma MultisetRemove<T>(b: seq<T>, k: nat)
    requires k < |b|
    ensures multiset(b[..k] + b[k + 1..]) == multiset(b) - multiset{b[k]}
  {
    assert b == b[..k] + [b[k]] + b[k + 1..];
  }

  /** Where the head of one permutation sits in the other. */
  lemma PermutationHead<T>(a: seq<T>, b: seq<T>) returns (k: nat)
    requires multiset(a) == multiset(b) && |a| > 0
    ensures k < |b| && b[k] == a[0]
    ensures multiset(a[1..]) == multiset(b[..k] + b[k + 1..])
  {
    assert a[0] in multiset(b);
    k :| 0 <= k < |b| && b[k] == a[0];
    assert a[..0] + a[1..] == a[1..];
    MultisetRemove(b, k);
    MultisetRemove(a, 0);
  }

  /** Mapping a permutation gives a permutation. */
  lemma {:induction false} MapMultiset<A, B>(a: seq<A>, b: seq<A>, f: A -> B)
    requires multiset(a) == multiset(b)
    ensures multiset(Map(a, f)) == multiset(Map(b, f))
    decreases |a|
  {
    if |a| > 0 {
      var k := PermutationHead(a, b);
      MapMultiset(a[1..], b[..k] + b[k + 1..], f);
      MapRemove(b, k, f);
      MapRemove(a, 0, f);
      assert a[..0] + a[1..] == a[1..];
    } else {
      assert |b| == |multiset(b)| == |multiset(a)| == 0;
    }
  }

  function First<T>(p: (T, real)): T {
    p.0
  }

  /** The elements of a list of (element, key) pairs: `[x[0] for x in s]`. */
  function Firsts<T>(s: seq<(T, real)>): (r: seq<T>)
    ensures |r| == |s|
    ensures forall i :: 0 <= i < |s| ==> r[i] == s[i].0
  {
    seq(|s|, i requires 0 <= i < |s| => s[i].0)
  }

  /** The first components of a permutation are a permutation of the first
      components. */
  lemma FirstsMultiset<T>(a: seq<(T, real)>, b: seq<(T, real)>)
    requires multiset(a) == multiset(b)
    ensures multiset(Firsts(a)) == multiset(Firsts(b))
  {
    MapAt(a, First);
    MapAt(b, First);
    assert Firsts(a) == Map(a, First);
    assert Firsts(b) == Map(b, First);
    MapMultiset(a, b, First);
  }

  predicate SortedDesc<T>(s: seq<(T, real)>) {
    forall i, j :: 0 <= i < j < |s| ==> s[i].1 >= s[j].1
  }

  /** Inserts `x` before the first element whose key is not larger, so that
      `x` precedes every later element with the same key. */
  function InsertDesc<T>(x: (T, real), s: seq<(T, real)>): seq<(T, real)> {
    if |s| == 0 || x.1 >= s[0].1 then [x] + s else [s[0]] + InsertDesc(x, s[1..])
  }

  function SortDesc<T>(s: seq<(T, real)>): seq<(T, real)> {
    if |s| == 0 then [] else InsertDesc(s[0], SortDesc(s[1..]))
  }

  /** The elements of `s` whose key is `k`, in order. */
  function WithKey<T>(s: seq<(T, real)>, k: real): seq<(T, real)> {
    if |s| == 0 then []
    else (if s[0].1 == k then [s[0]] else []) + WithKey(s[1..], k)
  }

  /** An element whose key is at least every key of a sorted list can go
      in front of it. */
  lemma ConsSorted<T>(y: (T, real), t: seq<(T, real)>)
    requires SortedDesc(t)
    requires forall j :: 0 <= j < |t| ==> y.1 >= t[j].1
    ensures SortedDesc([y] + t)
  {
    var r := [y] + t;
    forall i, j | 0 <= i < j < |r| ensures r[i].1 >= r[j].1 {
      assert r[j] == t[j - 1];
      if i > 0 {
        assert r[i] == t[i - 1];
      }
    }
  }

  lemma SortedTail<T>(s: seq<(T, real)>)
    requires SortedDesc(s) && |s| > 0
    ensures SortedDesc(s[1..])
    ensures forall j :: 0 <= j < |s[1..]| ==> s[0].1 >= s[1..][j].1
  {
    forall i, j | 0 <= i < j < |s[1..]| ensures s[1..][i].1 >= s[1..][j].1 {
      assert s[1..][i] == s[i + 1] && s[1..][j] == s[j + 1];
    }
    forall j | 0 <= j < |s[1..]| ensures s[0].1 >= s[1..][j].1 {
      assert s[1..][j] == s[j + 1];
    }
  }

  lemma {:induction false} InsertDescMultiset<T>(x: (T, real), s: seq<(T, real)>)
    ensures multiset(InsertDesc(x, s)) == multiset(s) + multiset{x}
  {
    if |s| > 0 && x.1 < s[0].1 {
      InsertDescMultiset(x, s[1..]);
      assert s == [s[0]] + s[1..];
    }
  }

  /** Inserting below a bound keeps everything below it. */
  lemma {:induction false} InsertDescBounded<T>(x: (T, real), s: seq<(T, real)>, b: real)
    requires x.1 <= b && forall j :: 0 <= j < |s| ==> s[j].1 <= b
    ensures forall j :: 0 <= j < |InsertDesc(x, s)| ==> InsertDesc(x, s)[j].1 <= b
  {
    var r := InsertDesc(x, s);
    if |s| == 0 || x.1 >= s[0].1 {
      assert r == [x] + s;
      forall j | 0 <= j < |r| ensures r[j].1 <= b {
        if j > 0 {
          assert r[j] == s[j - 1];
        }
      }
    } else {
      forall j | 0 <= j < |s[1..]| ensures s[1..][j].1 <= b {
        assert s[1..][j] == s[j + 1];
      }
      InsertDescBounded(x, s[1..], b);
      var t := InsertDesc(x, s[1..]);
      assert r == [s[0]] + t;
      forall j | 0 <= j < |r| ensures r[j].1 <= b {
        if j > 0 {
          assert r[j] == t[j - 1];
        }
      }
    }
  }

  lemma {:induction false} InsertDescSorted<T>(x: (T, real), s: seq<(T, real)>)
    requires SortedDesc(s)
    ensures multiset(InsertDesc(x, s)) == multiset(s) + multiset{x}
    ensures SortedDesc(InsertDesc(x, s))
  {
    InsertDescMultiset(x, s);
    if |s| == 0 {
      assert InsertDesc(x, s) == [x];
    } else if x.1 >= s[0].1 {
      SortedTail(s);
      forall j | 0 <= j < |s| ensures x.1 >= s[j].1 {
        if j > 0 {
          assert s[j] == s[1..][j - 1];
        }
      }
      ConsSorted(x, s);
    } else {
      SortedTail(s);
      var t := InsertDesc(x, s[1..]);
      InsertDescSorted(x, s[1..]);
      InsertDescBounded(x, s[1..], s[0].1);
      ConsSorted(s[0], t);
      assert InsertDesc(x, s) == [s[0]] + t;
    }
  }

  lemma {:induction false} InsertDescWithKey<T>(x: (T, real), s: seq<(T, real)>, k: real)
    ensures WithKey(InsertDesc(x, s), k) == (if x.1 == k then [x] else []) + WithKey(s, k)
  {
    if |s| == 0 || x.1 >= s[0].1 {
      var r := [x] + s;
      assert r[0] == x && r[1..] == s;
      assert InsertDesc(x, s) == r;
    } else {
      var t := InsertDesc(x, s[1..]);
      InsertDescWithKey(x, s[1..], k);
      var r := [s[0]] + t;
      assert r[0] == s[0] && r[1..] == t;
      assert InsertDesc(x, s) == r;
      var h: seq<(T, real)> := if s[0].1 == k then [s[0]] else [];
      var e: seq<(T, real)> := if x.1 == k then [x] else [];
      assert WithKey(r, k) == h + WithKey(t, k);
      assert WithKey(s, k) == h + WithKey(s[1..], k);
      assert h == [] || e == [];
      assert h + (e + WithKey(s[1..], k)) == e + (h + WithKey(s[1..], k));
    }
  }

  /** `list.sort(key=..., reverse=True)` as Python promises it: the result
      is ordered by decreasing key, holds the same elements, and keeps the
      input order among elements with equal keys. */
  lemma {:induction false} SortDescCorrect<T>(s: seq<(T, real)>)
    ensures SortedDesc(SortDesc(s))
    ensures multiset(SortDesc(s)) == multiset(s)
    ensures |SortDesc(s)| == |s|
    ensures forall k :: WithKey(SortDesc(s), k) == WithKey(s, k)
  {
    if |s| > 0 {
      SortDescCorrect(s[1..]);
      InsertDescSorted(s[0], SortDesc(s[1..]));
      assert s == [s[0]] + s[1..];
      forall k ensures WithKey(SortDesc(s), k) == WithKey(s, k) {
        InsertDescWithKey(s[0], SortDesc(s[1..]), k);
      }
      assert |SortDesc(s)| == |multiset(SortDesc(s))|;
    }
  }

  /** Selecting by key distributes over concatenation. */
  lemma {:induction false} WithKeyAppend<T>(a: seq<(T, real)>, b: seq<(T, real)>, k: real)
    ensures WithKey(a + b, k) == WithKey(a, k) + WithKey(b, k)
  {
    if |a| == 0 {
      assert a + b == b;
    } else {
      assert (a + b)[0] == a[0] && (a + b)[1..] == a[1..] + b;
      WithKeyAppend(a[1..], b, k);
      var h: seq<(T, real)> := if a[0].1 == k then [a[0]] else [];
      AppendAssoc(h, WithKey(a[1..], k), WithKey(b, k));
    }
  }

  /** Cutting a sorted list keeps a sorted front, part of the list, whose
      keys are at least every key of the back, and whose elements of each
      key are the first of the list with that key. */
  lemma SortedCut<T>(t: seq<(T, real)>, m: nat)
    requires SortedDesc(t) && m <= |t|
    ensures SortedDesc(t[..m])
    ensures multiset(t[..m]) <= multiset(t)
    ensures forall x, j :: x in multiset(t) - multiset(t[..m]) && 0 <= j < m ==> x.1 <= t[..m][j].1
    ensures forall k :: WithKey(t[..m], k) <= WithKey(t, k)
  {
    var kept, rest := t[..m], t[m..];
    assert t == kept + rest;
    assert multiset(t) - multiset(kept) == multiset(rest);
    forall i, j | 0 <= i < j < |kept| ensures kept[i].1 >= kept[j].1 {
      assert kept[i] == t[i] && kept[j] == t[j];
    }
    forall x: (T, real), j | x in multiset(rest) && 0 <= j < m ensures x.1 <= kept[j].1 {
      assert x in rest;
      var i :| 0 <= i < |rest| && rest[i] == x;
      assert rest[i] == t[m + i] && kept[j] == t[j];
    }
    forall k ensures WithKey(kept, k) <= WithKey(t, k) {
      WithKeyAppend(kept, rest, k);
    }
  }

  /** `sorted(s, key=..., reverse=True)[:n]` is the top of `s`: `n` of its
      elements (or all), by decreasing key; no element left out has a
      larger key than one kept; and among equal keys the ones kept are the
      first of the input, in input order. */
  lemma TopPrefix<T>(s: seq<(T, real)>, n: nat)
    ensures var kept := SlicePrefix(SortDesc(s), n);
            && |kept| == (if n <= |s| then n else |s|)
            && SortedDesc(kept)
            && multiset(kept) <= multiset(s)
            && (forall x, j :: x in multiset(s) - multiset(kept) && 0 <= j < |kept| ==> x.1 <= kept[j].1)
            && (forall k :: WithKey(kept, k) <= WithKey(s, k))
  {
    SortDescCorrect(s);
    var t := SortDesc(s);
    var m := if n <= |t| then n else |t|;
    assert SlicePrefix(t, n) == t[..m];
    SortedCut(t, m);
  }

  // ---------------------------------------------------------------------
  // Stable sort, ascending by a string key

  predicate SortedByKey<T>(s: seq<T>, key: T -> string) {
    forall i, j :: 0 <= i < j < |s| ==> StrLe(key(s[i]), key(s[j]))
  }

  function InsertAsc<T>(x: T, s: seq<T>, key: T -> string): seq<T> {
    if |s| == 0 || StrLe(key(x), key(s[0])) then [x] + s else [s[0]] + InsertAsc(x, s[1..], key)
  }

  /** `sorted(s, key=key)` */
  function SortAsc<T>(s: seq<T>, key: T -> string): seq<T> {
    if |s| == 0 then [] else InsertAsc(s[0], SortAsc(s[1..], key), key)
  }

  /** An element whose key is at most every key of a sorted list can go
      in front of it. */
  lemma ConsSortedByKey<T>(y: T, t: seq<T>, key: T -> string)
    requires SortedByKey(t, key)
    requires forall j :: 0 <= j < |t| ==> StrLe(key(y), key(t[j]))
    ensures SortedByKey([y] + t, key)
  {
    var r := [y] + t;
    forall i, j | 0 <= i < j < |r| ensures StrLe(key(r[i]), key(r[j])) {
      assert r[j] == t[j - 1];
      if i > 0 {
        assert r[i] == t[i - 1];
      }
    }
  }

  lemma SortedByKeyTail<T>(s: seq<T>, key: T -> string)
    requires SortedByKey(s, key) && |s| > 0
    ensures SortedByKey(s[1..], key)
    ensures forall j :: 0 <= j < |s[1..]| ==> StrLe(key(s[0]), key(s[1..][j]))
  {
    forall i, j | 0 <= i < j < |s[1..]| ensures StrLe(key(s[1..][i]), key(s[1..][j])) {
      assert s[1..][i] == s[i + 1] && s[1..][j] == s[j + 1];
    }
    forall j | 0 <= j < |s[1..]| ensures StrLe(key(s[0]), key(s[1..][j])) {
      assert s[1..][j] == s[j + 1];
    }
  }

  lemma {:induction false} InsertAscSorted<T>(x: T, s: seq<T>, key: T -> string)
    requires SortedByKey(s, key)
    ensures multiset(InsertAsc(x, s, key)) == multiset(s) + multiset{x}
    ensures SortedByKey(InsertAsc(x, s, key), key)
  {
    if |s| == 0 {
      assert InsertAsc(x, s, key) == [x];
    } else if StrLe(key(x), key(s[0])) {
      SortedByKeyTail(s, key);
      forall j | 0 <= j < |s| ensures StrLe(key(x), key(s[j])) {
        if j > 0 {
          assert s[j] == s[1..][j - 1];
          StrLeTransitive(key(x), key(s[0]), key(s[j]));
        }
      }
      ConsSortedByKey(x, s, key);
      assert InsertAsc(x, s, key) == [x] + s;
    } else {
      StrLeTotal(key(x), key(s[0]));
      SortedByKeyTail(s, key);
      var t := InsertAsc(x, s[1..], key);
      InsertAscSorted(x, s[1..], key);
      assert s == [s[0]] + s[1..];
      forall j | 0 <= j < |t| ensures StrLe(key(s[0]), key(t[j])) {
        assert t[j] in multiset(t);
        if t[j] != x {
          var m :| 0 <= m < |s[1..]| && s[1..][m] == t[j];
        }
      }
      ConsSortedByKey(s[0], t, key);
      assert InsertAsc(x, s, key) == [s[0]] + t;
    }
  }

  lemma {:induction false} SortAscCorrect<T>(s: seq<T>, key: T -> string)
    ensures SortedByKey(SortAsc(s, key), key)
    ensures multiset(SortAsc(s, key)) == multiset(s)
  {
    if |s| > 0 {
      SortAscCorrect(s[1..], key);
      InsertAscSorted(s[0], SortAsc(s[1..], key), key);
      assert s == [s[0]] + s[1..];
    }
  }

  /** No two distinct elements of `s` share a key. */
  predicate KeyInjective<T(==)>(s: seq<T>, key: T -> string) {
    forall i, j :: 0 <= i < |s| && 0 <= j < |s| && key(s[i]) == key(s[j]) ==> s[i] == s[j]
  }

  lemma SortedHeadsEqual<T>(a: seq<T>, b: seq<T>, key: T -> string)
    requires SortedByKey(a, key) && SortedByKey(b, key)
    requires multiset(a) == multiset(b)
    requires KeyInjective(a, key)
    requires |a| > 0 && |b| > 0
    ensures a[0] == b[0]
  {
    assert a[0] in multiset(b);
    assert b[0] in multiset(a);
    var i :| 0 <= i < |b| && b[i] == a[0];
    var j :| 0 <= j < |a| && a[j] == b[0];
    assert StrLe(key(b[0]), key(a[0])) by {
      if i == 0 { StrLeTotal(key(b[0]), key(a[0])); }
    }
    assert StrLe(key(a[0]), key(b[0])) by {
      if j == 0 { StrLeTotal(key(b[0]), key(a[0])); }
    }
    StrLeAntisymmetric(key(a[0]), key(b[0]));
  }

  lemma MultisetTails<T>(a: seq<T>, b: seq<T>)
    requires |a| > 0 && |b| > 0 && a[0] == b[0]
    requires multiset(a) == multiset(b)
    ensures multiset(a[1..]) == multiset(b[1..])
  {
    assert a == [a[0]] + a[1..] && b == [b[0]] + b[1..];
    assert multiset(a[1..]) == multiset(a) - multiset{a[0]};
    assert multiset(b[1..]) == multiset(b) - multiset{b[0]};
  }

  /** Two sequences sorted by a key that tells their elements apart, with
      the same elements, are equal. */
  lemma {:induction false} SortedUnique<T>(a: seq<T>, b: seq<T>, key: T -> string)
    requires SortedByKey(a, key) && SortedByKey(b, key)
    requires multiset(a) == multiset(b)
    requires KeyInjective(a, key)
    ensures a == b
  {
    assert |b| == |multiset(b)| == |multiset(a)| == |a|;
    if |a| > 0 {
      SortedHeadsEqual(a, b, key);
      MultisetTails(a, b);
      assert KeyInjective(a[1..], key) by {
        forall p, q | 0 <= p < |a[1..]| && 0 <= q < |a[1..]| && key(a[1..][p]) == key(a[1..][q])
          ensures a[1..][p] == a[1..][q]
        {
          assert a[1..][p] == a[p + 1] && a[1..][q] == a[q + 1];
        }
      }
      assert SortedByKey(a[1..], key) && SortedByKey(b[1..], key) by {
        forall p, q | 0 <= p < q < |a[1..]| ensures StrLe(key(a[1..][p]), key(a[1..][q])) {
          assert a[1..][p] == a[p + 1] && a[1..][q] == a[q + 1];
        }
        forall p, q | 0 <= p < q < |b[1..]| ensures StrLe(key(b[1..][p]), key(b[1..][q])) {
          assert b[1..][p] == b[p + 1] && b[1..][q] == b[q + 1];
        }
      }
      SortedUnique(a[1..], b[1..], key);
      assert a == [a[0]] + a[1..] && b == [b[0]] + b[1..];
    }
  }

  /** `sorted()` does not depend on the order of its input, provided the
      key tells the elements apart. */
  lemma SortAscOrderIndependent<T>(a: seq<T>, b: seq<T>, key: T -> string)
    requires multiset(a) == multiset(b)
    requires KeyInjective(a, key)
    ensures SortAsc(a, key) == SortAsc(b, key)
  {
    SortAscCorrect(a, key);
    SortAscCorrect(b, key);
    var sa := SortAsc(a, key);
    forall i, j | 0 <= i < |sa| && 0 <= j < |sa| && key(sa[i]) == key(sa[j])
      ensures sa[i] == sa[j]
    {
      assert sa[i] in multiset(a) && sa[j] in multiset(a);
      var p :| 0 <= p < |a| && a[p] == sa[i];
      var q :| 0 <= q < |a| && a[q] == sa[j];
    }
    SortedUnique(sa, SortAsc(b, key), key);
  }

  /** A common prefix can be cancelled. */
  lemma PrefixCancel<T>(p: seq<T>, x: seq<T>, y: seq<T>)
    requires p + x == p + y
    ensures x == y
  {
    assert x == (p + x)[|p|..] && y == (p + y)[|p|..];
  }
}
