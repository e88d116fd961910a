/**
 * Three-way comparison of strings (`strings.Compare`, `cmp.Compare[string]`) and of
 * tuples of strings compared field by field, as the sort comparators of the
 * configuration do. Go compares the UTF-8 bytes of a string; byte order of UTF-8
 * coincides with the order of the code points, so comparing characters is faithful.
 */
module Ordering {

  /** `strings.Compare(a, b)`: -1, 0 or +1. */
  function StrCompare(a: string, b: string): (c: int)
    ensures -1 <= c <= 1
    ensures c == 0 <==> a == b
    decreases |a|
  {
    if a == [] && b == [] then 0
    else if a == [] then -1
    else if b == [] then 1
    else if a[0] < b[0] then -1
    else if a[0] > b[0] then 1
    else
      var c := StrCompare(a[1..], b[1..]);
      assert c == 0 ==> a == [a[0]] + a[1..] == [b[0]] + b[1..] == b;
      c
  }

  predicate StrLe(a: string, b: string)
  {
    StrCompare(a, b) <= 0
  }

  lemma {:induction false} StrCompareAntisym(a: string, b: string)
    ensures StrCompare(b, a) == -StrCompare(a, b)
    decreases |a|
  {
    if a != [] && b != [] && a[0] == b[0] {
      StrCompareAntisym(a[1..], b[1..]);
    }
  }

  lemma {:induction false} StrCompareTrans(a: string, b: string, c: string)
    requires StrCompare(a, b) <= 0 && StrCompare(b, c) <= 0
    ensures StrCompare(a, c) <= 0
    decreases |a|
  {
    if a != [] && b != [] && c != [] && a[0] == b[0] == c[0] {
      StrCompareTrans(a[1..], b[1..], c[1..]);
    }
  }

  /** A prefix sorts no later than the strings it starts. */
  lemma {:induction false} StrComparePrefix(a: string, x: string)
    ensures StrCompare(a, a + x) <= 0
    decreases |a|
  {
    if a != [] {
      assert (a + x)[1..] == a[1..] + x;
      StrComparePrefix(a[1..], x);
    }
  }

  /**
   * Field-by-field comparison of tuples of strings: the first field that differs
   * decides, as in `if c := strings.Compare(..); c != 0 { return c }; return ...`.
   */
  function KeyCompare(k1: seq<string>, k2: seq<string>): (c: int)
    ensures -1 <= c <= 1
    ensures c == 0 <==> k1 == k2
    decreases |k1|
  {
    if k1 == [] && k2 == [] then 0
    else if k1 == [] then -1
    else if k2 == [] then 1
    else
      var c := StrCompare(k1[0], k2[0]);
      if c != 0 then c
      else
        var rest := KeyCompare(k1[1..], k2[1..]);
        assert rest == 0 ==> k1 == [k1[0]] + k1[1..] == [k2[0]] + k2[1..] == k2;
        rest
  }

  predicate KeyLe(k1: seq<string>, k2: seq<string>)
  {
    KeyCompare(k1, k2) <= 0
  }

  lemma {:induction false} KeyCompareAntisym(k1: seq<string>, k2: seq<string>)
    ensures KeyCompare(k2, k1) == -KeyCompare(k1, k2)
    decreases |k1|
  {
    if k1 != [] && k2 != [] {
      StrCompareAntisym(k1[0], k2[0]);
      KeyCompareAntisym(k1[1..], k2[1..]);
    }
  }

  lemma {:induction false} KeyCompareTrans(k1: seq<string>, k2: seq<string>, k3: seq<string>)
    requires KeyCompare(k1, k2) <= 0 && KeyCompare(k2, k3) <= 0
    ensures KeyCompare(k1, k3) <= 0
    decreases |k1|
  {
    if k1 != [] && k2 != [] && k3 != [] {
      StrCompareTrans(k1[0], k2[0], k3[0]);
      StrCompareAntisym(k1[0], k2[0]);
      StrCompareAntisym(k2[0], k3[0]);
      StrCompareAntisym(k1[0], k3[0]);
      if StrCompare(k1[0], k2[0]) == 0 && StrCompare(k2[0], k3[0]) == 0 {
        KeyCompareTrans(k1[1..], k2[1..], k3[1..]);
      }
    }
  }

  /** `KeyLe` is a total preorder; with `KeyCompare`'s zero case it is a total order. */
  lemma KeyLeTotal(k1: seq<string>, k2: seq<string>)
    ensures KeyLe(k1, k2) || KeyLe(k2, k1)
    ensures KeyLe(k1, k2) && KeyLe(k2, k1) ==> k1 == k2
  {
    KeyCompareAntisym(k1, k2);
  }

  lemma KeyLeTrans(k1: seq<string>, k2: seq<string>, k3: seq<string>)
    requires KeyLe(k1, k2) && KeyLe(k2, k3)
    ensures KeyLe(k1, k3)
  {
    KeyCompareTrans(k1, k2, k3);
  }
}
