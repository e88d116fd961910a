/**
 * The stable sort behind `slices.SortStableFunc` (and `slices.Sort` on strings,
 * Python's `sorted`) as a function: an insertion sort by a string-tuple key.
 * A sorted sequence that keeps, for every key, the elements of that key in their
 * input order is unique (`StableSortUnique`), so this function is the result of
 * any stable sort with `KeyCompare` as comparator.
 */
module Sorting {
  import opened Ordering

  predicate SortedBy<T>(s: seq<T>, key: T -> seq<string>)
  {
    forall i, j :: 0 <= i < j < |s| ==> KeyLe(key(s[i]), key(s[j]))
  }

  /** Places `x` in front of the first element whose key is not smaller than its own. */
  function Insert<T>(x: T, s: seq<T>, key: T -> seq<string>): (r: seq<T>)
    ensures |r| == |s| + 1
    ensures multiset(r) == multiset(s) + multiset{x}
  {
    if s == [] then [x]
    else if KeyLe(key(x), key(s[0])) then [x] + s
    else
      assert s == [s[0]] + s[1..];
      [s[0]] + Insert(x, s[1..], key)
  }

  /** An element no greater than every element of a sorted sequence can go in front of it. */
  lemma SortedCons<T>(a: T, t: seq<T>, key: T -> seq<string>)
    requires SortedBy(t, key)
    requires forall j :: 0 <= j < |t| ==> KeyLe(key(a), key(t[j]))
    ensures SortedBy([a] + t, key)
  {
    var r := [a] + t;
    forall i, j | 0 <= i < j < |r| ensures KeyLe(key(r[i]), key(r[j])) {
      assert r[j] == t[j - 1];
      if i > 0 { assert r[i] == t[i - 1]; }
    }
  }

  /** Inserting into a sorted sequence keeps it sorted. */
  lemma {:induction false} InsertSorted<T>(x: T, s: seq<T>, key: T -> seq<string>)
    requires SortedBy(s, key)
    ensures SortedBy(Insert(x, s, key), key)
    decreases |s|
  {
    if s == [] {
    } else if KeyLe(key(x), key(s[0])) {
      forall j | 0 <= j < |s| ensures KeyLe(key(x), key(s[j])) {
        if j > 0 { KeyLeTrans(key(x), key(s[0]), key(s[j])); }
      }
      SortedCons(x, s, key);
    } else {
      var rest := Insert(x, s[1..], key);
      SortedTail(s, key);
      InsertSorted(x, s[1..], key);
      KeyLeTotal(key(x), key(s[0]));
      forall j | 0 <= j < |rest| ensures KeyLe(key(s[0]), key(rest[j])) {
        assert rest[j] in multiset(rest);
        if rest[j] != x {
          assert rest[j] in multiset(s[1..]);
          var m :| 0 <= m < |s[1..]| && s[1..][m] == rest[j];
          assert s[m + 1] == rest[j];
        }
      }
      SortedCons(s[0], rest, key);
    }
  }

  /** Stable sort of `s` by `key`. */
  function SortBy<T>(s: seq<T>, key: T -> seq<string>): (r: seq<T>)
    ensures |r| == |s|
    ensures multiset(r) == multiset(s)
  {
    if s == [] then []
    else
      assert s == [s[0]] + s[1..];
      Insert(s[0], SortBy(s[1..], key), key)
  }

  /** The result of `SortBy` is sorted. */
  lemma {:induction false} SortBySortedBy<T>(s: seq<T>, key: T -> seq<string>)
    ensures SortedBy(SortBy(s, key), key)
    decreases |s|
  {
    if s != [] {
      SortBySortedBy(s[1..], key);
      InsertSorted(s[0], SortBy(s[1..], key), key);
    }
  }

  /** The elements of `s` whose key is `k`, in their order in `s`. */
  function FilterKey<T>(s: seq<T>, key: T -> seq<string>, k: seq<string>): seq<T>
  {
    if s == [] then []
    else (if key(s[0]) == k then [s[0]] else []) + FilterKey(s[1..], key, k)
  }

  lemma {:induction false} FilterKeyAppend<T>(a: seq<T>, b: seq<T>, key: T -> seq<string>, k: seq<string>)
    ensures FilterKey(a + b, key, k) == FilterKey(a, key, k) + FilterKey(b, key, k)
    decreases |a|
  {
    if a == [] {
      assert a + b == b;
    } else {
      assert (a + b)[1..] == a[1..] + b;
      assert (a + b)[0] == a[0];
      FilterKeyAppend(a[1..], b, key, k);
      var h := if key(a[0]) == k then [a[0]] else [];
      assert FilterKey(a + b, key, k) == h + (FilterKey(a[1..], key, k) + FilterKey(b, key, k));
    }
  }

  lemma {:induction false} InsertFilter<T>(x: T, s: seq<T>, key: T -> seq<string>, k: seq<string>)
    ensures FilterKey(Insert(x, s, key), key, k)
      == (if key(x) == k then [x] else []) + FilterKey(s, key, k)
    decreases |s|
  {
    var hx: seq<T> := if key(x) == k then [x] else [];
    if s == [] {
      assert Insert(x, s, key) == [x];
      assert FilterKey([x], key, k) == hx + FilterKey([], key, k);
    } else if KeyLe(key(x), key(s[0])) {
      var r := Insert(x, s, key);
      assert r == [x] + s;
      assert r[1..] == s;
    } else {
      var rest := Insert(x, s[1..], key);
      assert Insert(x, s, key) == [s[0]] + rest;
      InsertFilter(x, s[1..], key, k);
      assert key(s[0]) != key(x);
      FilterPastHead(s[0], x, s[1..], rest, key, k);
      assert [s[0]] + s[1..] == s;
    }
  }

  /** Passing a head of another key moves an element in front of it without changing what any key filters to. */
  lemma FilterPastHead<T>(a: T, x: T, t: seq<T>, rest: seq<T>, key: T -> seq<string>, k: seq<string>)
    requires key(a) != key(x)
    requires FilterKey(rest, key, k) == (if key(x) == k then [x] else []) + FilterKey(t, key, k)
    ensures FilterKey([a] + rest, key, k) == (if key(x) == k then [x] else []) + FilterKey([a] + t, key, k)
  {
    FilterKeyCons(a, rest, key, k);
    FilterKeyCons(a, t, key, k);
    if key(a) == k {
      assert key(x) != k;
    }
  }

  lemma FilterKeyCons<T>(a: T, t: seq<T>, key: T -> seq<string>, k: seq<string>)
    ensures FilterKey([a] + t, key, k) == (if key(a) == k then [a] else []) + FilterKey(t, key, k)
  {
    assert ([a] + t)[1..] == t;
  }

  /**
   * Stability: among the elements that share a key, sorting keeps their relative order,
   * so for every key the sorted sequence lists the same elements in the same order.
   */
  lemma {:induction false} SortByStable<T>(s: seq<T>, key: T -> seq<string>, k: seq<string>)
    ensures FilterKey(SortBy(s, key), key, k) == FilterKey(s, key, k)
    decreases |s|
  {
    if s != [] {
      SortByStable(s[1..], key, k);
      InsertFilter(s[0], SortBy(s[1..], key), key, k);
    }
  }

  /** Sorting an already sorted sequence changes nothing; in particular sorting twice is sorting once. */
  lemma {:induction false} SortBySorted<T>(s: seq<T>, key: T -> seq<string>)
    requires SortedBy(s, key)
    ensures SortBy(s, key) == s
    decreases |s|
  {
    if s != [] {
      assert SortedBy(s[1..], key);
      SortBySorted(s[1..], key);
      if |s| > 1 {
        assert KeyLe(key(s[0]), key(s[1]));
      }
      assert s == [s[0]] + s[1..];
    }
  }

  lemma {:induction false} FilterKeyMember<T>(s: seq<T>, key: T -> seq<string>, k: seq<string>, x: T)
    requires x in FilterKey(s, key, k)
    ensures x in s && key(x) == k
    decreases |s|
  {
    if s != [] && !(key(s[0]) == k && x == s[0]) {
      FilterKeyMember(s[1..], key, k, x);
    }
  }

  /**
   * A sorted sequence is determined by what it holds under each key: two sorted sequences
   * that agree, key by key, on the elements and their order are equal.
   */
  lemma {:induction false} StableSortUnique<T>(r: seq<T>, t: seq<T>, key: T -> seq<string>)
    requires SortedBy(r, key) && SortedBy(t, key)
    requires forall k :: FilterKey(r, key, k) == FilterKey(t, key, k)
    ensures r == t
    decreases |r|
  {
    if r == [] || t == [] {
      var u := if r == [] then t else r;
      if u != [] {
        assert FilterKey(r, key, key(u[0])) != FilterKey(t, key, key(u[0]));
      }
    } else {
      var k0, k1 := key(r[0]), key(t[0]);
      assert r[0] in FilterKey(t, key, k0) by {
        assert FilterKey(r, key, k0)[0] == r[0];
      }
      FilterKeyMember(t, key, k0, r[0]);
      HeadLeast(t, key, r[0]);
      assert t[0] in FilterKey(r, key, k1) by {
        assert FilterKey(t, key, k1)[0] == t[0];
      }
      FilterKeyMember(r, key, k1, t[0]);
      HeadLeast(r, key, t[0]);
      KeyLeTotal(k0, k1);
      assert r[0] == t[0];
      forall k ensures FilterKey(r[1..], key, k) == FilterKey(t[1..], key, k) {
        var h: seq<T> := if k == k0 then [r[0]] else [];
        assert FilterKey(r, key, k) == h + FilterKey(r[1..], key, k);
        assert FilterKey(t, key, k) == h + FilterKey(t[1..], key, k);
        assert (h + FilterKey(r[1..], key, k))[|h|..] == FilterKey(r[1..], key, k);
        assert (h + FilterKey(t[1..], key, k))[|h|..] == FilterKey(t[1..], key, k);
      }
      SortedTail(r, key);
      SortedTail(t, key);
      StableSortUnique(r[1..], t[1..], key);
      assert r == [r[0]] + r[1..] && t == [t[0]] + t[1..];
    }
  }

  /** Any stable sort by `key` agrees with `SortBy`. */
  lemma IsSortBy<T>(s: seq<T>, r: seq<T>, key: T -> seq<string>)
    requires SortedBy(r, key)
    requires forall k :: FilterKey(r, key, k) == FilterKey(s, key, k)
    ensures r == SortBy(s, key)
  {
    forall k ensures FilterKey(r, key, k) == FilterKey(SortBy(s, key), key, k) {
      SortByStable(s, key, k);
    }
    SortBySortedBy(s, key);
    StableSortUnique(r, SortBy(s, key), key);
  }

  /** The head of a sorted sequence has the least key. */
  lemma HeadLeast<T>(a: seq<T>, key: T -> seq<string>, x: T)
    requires SortedBy(a, key) && x in multiset(a)
    ensures KeyLe(key(a[0]), key(x))
  {
    var i :| 0 <= i < |a| && a[i] == x;
    if i == 0 {
      KeyLeTotal(key(x), key(x));
    }
  }

  /** Dropping the same head from two permutations of each other leaves permutations. */
  lemma TailMultiset<T>(a: seq<T>, b: seq<T>)
    requires a != [] && b != [] && a[0] == b[0] && multiset(a) == multiset(b)
    ensures multiset(a[1..]) == multiset(b[1..])
  {
    assert a == [a[0]] + a[1..] && b == [b[0]] + b[1..];
    assert multiset(a) == multiset{a[0]} + multiset(a[1..]);
    assert multiset(b) == multiset{b[0]} + multiset(b[1..]);
    calc {
      multiset(a[1..]);
      multiset(a) - multiset{a[0]};
      multiset(b) - multiset{b[0]};
      multiset(b[1..]);
    }
  }

  lemma SortedTail<T>(a: seq<T>, key: T -> seq<string>)
    requires a != [] && SortedBy(a, key)
    ensures SortedBy(a[1..], key)
  {
    forall i, j | 0 <= i < j < |a| - 1 ensures KeyLe(key(a[1..][i]), key(a[1..][j])) {
      assert a[1..][i] == a[i + 1] && a[1..][j] == a[j + 1];
    }
  }

  /**
   * Two sorted sequences with the same elements are equal when no two of their elements
   * share a key: the sorted order of distinct keys is unique.
   */
  lemma {:induction false} SortedUnique<T>(a: seq<T>, b: seq<T>, key: T -> seq<string>)
    requires SortedBy(a, key) && SortedBy(b, key)
    requires multiset(a) == multiset(b)
    requires forall x, y :: x in a && y in a && key(x) == key(y) ==> x == y
    ensures a == b
    decreases |a|
  {
    assert |a| == |multiset(a)| == |b|;
    if a != [] {
      assert a[0] in multiset(b) && b[0] in multiset(a);
      HeadLeast(b, key, a[0]);
      HeadLeast(a, key, b[0]);
      KeyLeTotal(key(a[0]), key(b[0]));
      assert b[0] in a;
      assert a[0] == b[0];
      TailMultiset(a, b);
      SortedTail(a, key);
      SortedTail(b, key);
      assert forall x :: x in a[1..] ==> x in a;
      SortedUnique(a[1..], b[1..], key);
      assert a == [a[0]] + a[1..] && b == [b[0]] + b[1..];
    }
  }

  /** The elements of a sequence sorted by a key that tells them apart do not depend on the input order. */
  lemma SortByPermutation<T>(s1: seq<T>, s2: seq<T>, key: T -> seq<string>)
    requires multiset(s1) == multiset(s2)
    requires forall x, y :: x in s1 && y in s1 && key(x) == key(y) ==> x == y
    ensures SortBy(s1, key) == SortBy(s2, key)
  {
    var r1 := SortBy(s1, key);
    SortBySortedBy(s1, key);
    SortBySortedBy(s2, key);
    assert forall x :: x in r1 ==> x in s1 by {
      forall x | x in r1 ensures x in s1 {
        assert x in multiset(r1);
      }
    }
    SortedUnique(r1, SortBy(s2, key), key);
  }

  /** `slices.Sort` on strings: ascending by `strings.Compare`. */
  function SortStrings(s: seq<string>): (r: seq<string>)
    ensures multiset(r) == multiset(s)
  {
    SortBy(s, StringKey)
  }

  /** The result of `SortStrings` is in ascending order. */
  lemma SortStringsSorted(s: seq<string>)
    ensures var r := SortStrings(s); forall i, j :: 0 <= i < j < |r| ==> StrLe(r[i], r[j])
  {
    var r := SortStrings(s);
    SortBySortedBy(s, StringKey);
    assert forall i, j :: 0 <= i < j < |r| ==> KeyLe(StringKey(r[i]), StringKey(r[j]));
  }

  function StringKey(t: string): seq<string> { [t] }

  /** Sorting strings forgets the order they came in. */
  lemma SortStringsPermutation(s1: seq<string>, s2: seq<string>)
    requires multiset(s1) == multiset(s2)
    ensures SortStrings(s1) == SortStrings(s2)
  {
    SortByPermutation(s1, s2, StringKey);
  }

  lemma SortStringsIdempotent(s: seq<string>)
    ensures SortStrings(SortStrings(s)) == SortStrings(s)
  {
    SortBySortedBy(s, StringKey);
    SortBySorted(SortBy(s, StringKey), StringKey);
  }

  /**
   * A loop that rewrites the tags of each listed element in place with `f`, after `i`
   * rounds, with `tags` what each element holds now: every element met so far holds `f`
   * of its original tags, and every element not met yet holds its original tags.
   */
  ghost predicate MappedPrefix<T>(xs: seq<T>, i: int, tags: map<T, seq<string>>, original: map<T, seq<string>>,
                                  f: seq<string> -> seq<string>)
  {
    && 0 <= i <= |xs|
    && (forall a | a in xs :: a in original && a in tags)
    && (forall a | a in xs[..i] :: tags[a] == f(original[a]))
    && (forall a | a in xs[i..] && a !in xs[..i] :: tags[a] == original[a])
  }

  /** `MappedPrefix` for the loop that sorts each element's tags. */
  ghost predicate TagsSortedPrefix<T>(xs: seq<T>, i: int, tags: map<T, seq<string>>, original: map<T, seq<string>>)
  {
    MappedPrefix(xs, i, tags, original, SortStrings)
  }

  /** Sorting the tags of element `i` extends the sorted prefix by one, also when that element is listed twice. */
  lemma TagsSortedStep<T>(xs: seq<T>, i: int, tags: map<T, seq<string>>, original: map<T, seq<string>>)
    requires TagsSortedPrefix(xs, i, tags, original) && i < |xs|
    ensures TagsSortedPrefix(xs, i + 1, tags[xs[i] := SortStrings(tags[xs[i]])], original)
  {
    TagsSortedCurrent(xs, i, tags, original);
    MappedMet(xs, i, tags, original, SortStrings);
    MappedNotMet(xs, i, tags, original, SortStrings);
  }

  /** Element `i` ends up with its original tags sorted, whether or not it was met before. */
  lemma TagsSortedCurrent<T>(xs: seq<T>, i: int, tags: map<T, seq<string>>, original: map<T, seq<string>>)
    requires TagsSortedPrefix(xs, i, tags, original) && i < |xs|
    ensures SortStrings(tags[xs[i]]) == SortStrings(original[xs[i]])
  {
    var a := xs[i];
    if a in xs[..i] {
      // sorting twice is what sorting once already did
      SortStringsIdempotent(original[a]);
    } else {
      assert a in xs[i..];
    }
  }

  lemma MappedMet<T>(xs: seq<T>, i: int, tags: map<T, seq<string>>, original: map<T, seq<string>>,
                     f: seq<string> -> seq<string>)
    requires MappedPrefix(xs, i, tags, original, f) && i < |xs|
    requires f(tags[xs[i]]) == f(original[xs[i]])
    ensures var after := tags[xs[i] := f(tags[xs[i]])];
      forall b | b in xs[..i + 1] :: after[b] == f(original[b])
  {
    var a := xs[i];
    var after := tags[a := f(tags[a])];
    forall b | b in xs[..i + 1] ensures after[b] == f(original[b]) {
      if b != a {
        var k :| 0 <= k < i + 1 && xs[..i + 1][k] == b;
        assert xs[..i][k] == b;
      }
    }
  }

  lemma MappedNotMet<T>(xs: seq<T>, i: int, tags: map<T, seq<string>>, original: map<T, seq<string>>,
                        f: seq<string> -> seq<string>)
    requires MappedPrefix(xs, i, tags, original, f) && i < |xs|
    ensures var after := tags[xs[i] := f(tags[xs[i]])];
      forall b | b in xs[i + 1..] && b !in xs[..i + 1] :: after[b] == original[b]
  {
    var a := xs[i];
    assert xs[..i + 1] == xs[..i] + [a];
    assert xs[i..] == [a] + xs[i + 1..];
    forall b | b in xs[i + 1..] && b !in xs[..i + 1] ensures tags[a := f(tags[a])][b] == original[b] {
      assert b != a && b in xs[i..] && b !in xs[..i];
    }
  }

  // ---------------------------------------------------------------------------
  // Duplicate-free sequences and keyed pairs

  predicate Distinct<T(==)>(s: seq<T>)
  {
    forall i, j :: 0 <= i < j < |s| ==> s[i] != s[j]
  }

  lemma {:induction false} DistinctCount<T>(s: seq<T>, x: T)
    requires Distinct(s)
    ensures multiset(s)[x] <= 1
    decreases |s|
  {
    if s != [] {
      assert s == [s[0]] + s[1..];
      assert Distinct(s[1..]) by {
        forall i, j | 0 <= i < j < |s| - 1 ensures s[1..][i] != s[1..][j] {
          assert s[1..][i] == s[i + 1] && s[1..][j] == s[j + 1];
        }
      }
      DistinctCount(s[1..], x);
      if x == s[0] {
        assert x !in s[1..];
      }
    }
  }

  /** A permutation of a duplicate-free sequence is duplicate-free. */
  lemma DistinctPermutation<T>(s: seq<T>, t: seq<T>)
    requires Distinct(s) && multiset(s) == multiset(t)
    ensures Distinct(t)
  {
    forall i, j | 0 <= i < j < |t| ensures t[i] != t[j] {
      DistinctCount(s, t[i]);
      assert t == t[..j] + t[j..];
      assert t[i] in t[..j] && t[j] in t[j..];
    }
  }

  /** The second components of a sequence of pairs. */
  function Seconds<K, V>(ps: seq<(K, V)>): (r: seq<V>)
    ensures |r| == |ps|
    ensures forall i :: 0 <= i < |ps| ==> r[i] == ps[i].1
  {
    if ps == [] then [] else Seconds(ps[..|ps| - 1]) + [ps[|ps| - 1].1]
  }

  lemma SecondsAppend<K, V>(a: seq<(K, V)>, b: seq<(K, V)>)
    ensures Seconds(a + b) == Seconds(a) + Seconds(b)
  {
  }

  /** Permuting pairs permutes their second components. */
  lemma {:induction false} SecondsPermutation<K, V>(p: seq<(K, V)>, q: seq<(K, V)>)
    requires multiset(p) == multiset(q)
    ensures multiset(Seconds(p)) == multiset(Seconds(q))
    decreases |p|
  {
    assert |p| == |multiset(p)| == |q|;
    if p != [] {
      var x := p[|p| - 1];
      var init := p[..|p| - 1];
      assert p == init + [x];
      assert x in multiset(q);
      var k :| 0 <= k < |q| && q[k] == x;
      var rest := q[..k] + q[k + 1..];
      assert q == q[..k] + [x] + q[k + 1..];
      assert multiset(q) == multiset(q[..k]) + multiset{x} + multiset(q[k + 1..]);
      assert multiset(p) == multiset(init) + multiset{x};
      assert multiset(rest) == multiset(q[..k]) + multiset(q[k + 1..]);
      calc {
        multiset(init);
        multiset(p) - multiset{x};
        multiset(q) - multiset{x};
        multiset(rest);
      }
      SecondsPermutation(init, rest);
      SecondsAppend(init, [x]);
      SecondsAppend(q[..k] + [x], q[k + 1..]);
      SecondsAppend(q[..k], [x]);
      SecondsAppend(q[..k], q[k + 1..]);
    }
  }
}
