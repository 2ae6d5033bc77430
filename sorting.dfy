/**
 * The array operations the server code borrows from JavaScript, as functions on
 * sequences: `Array.prototype.sort` with a descending numeric comparator
 * (`(a, b) => key(b) - key(a)`), `filter` on an equal key, and a `reduce` that
 * sums a key.
 *
 * `Array.prototype.sort` is stable, so for a given comparator its result is
 * unique: the stable insertion sort below returns exactly what the engine
 * returns.
 */
module Sorting {

  /** Every element's key is at least the key of every element after it. */
  ghost predicate SortedDesc<T>(s: seq<T>, key: T -> int) {
    forall i, j :: 0 <= i < j < |s| ==> key(s[i]) >= key(s[j])
  }

  /** Insert x before the first element whose key is not larger than x's. */
  function InsertDesc<T>(x: T, s: seq<T>, key: T -> int): (r: seq<T>)
    ensures |r| == |s| + 1
    ensures multiset(r) == multiset(s) + multiset{x}
    ensures r[0] == x || (s != [] && r[0] == s[0])
  {
    if s == [] || key(x) >= key(s[0]) then
      [x] + s
    else
      assert s == [s[0]] + s[1..];
      [s[0]] + InsertDesc(x, s[1..], key)
  }

  /** Putting in front an element whose key is at least the head's keeps a sequence sorted. */
  lemma ConsSorted<T>(h: T, r: seq<T>, key: T -> int)
    requires SortedDesc(r, key) && (r == [] || key(h) >= key(r[0]))
    ensures SortedDesc([h] + r, key)
  {
    forall i, j | 0 <= i < j < |[h] + r|
      ensures key(([h] + r)[i]) >= key(([h] + r)[j])
    {
      if i > 0 {
        assert ([h] + r)[i] == r[i - 1] && ([h] + r)[j] == r[j - 1];
      } else {
        assert ([h] + r)[j] == r[j - 1];
      }
    }
  }

  /** Inserting into a sorted sequence gives a sorted sequence. */
  lemma {:induction false} InsertDescSorted<T>(x: T, s: seq<T>, key: T -> int)
    requires SortedDesc(s, key)
    ensures SortedDesc(InsertDesc(x, s, key), key)
  {
    if s == [] || key(x) >= key(s[0]) {
      ConsSorted(x, s, key);
    } else {
      var tail := s[1..];
      assert SortedDesc(tail, key);
      InsertDescSorted(x, tail, key);
      var rest := InsertDesc(x, tail, key);
      assert tail != [] ==> key(s[0]) >= key(tail[0]);
      ConsSorted(s[0], rest, key);
    }
  }

  /** Stable sort, largest key first. */
  function SortDesc<T>(s: seq<T>, key: T -> int): (r: seq<T>)
    ensures |r| == |s|
    ensures multiset(r) == multiset(s)
    ensures SortedDesc(r, key)
  {
    if s == [] then
      []
    else
      assert s == [s[0]] + s[1..];
      var tail := SortDesc(s[1..], key);
      InsertDescSorted(s[0], tail, key);
      InsertDesc(s[0], tail, key)
  }

  /** `s.filter(x => key(x) === k)`, keeping the order of s. */
  function FilterKey<T>(s: seq<T>, key: T -> int, k: int): (r: seq<T>)
    ensures forall i :: 0 <= i < |r| ==> r[i] in s && key(r[i]) == k
    ensures forall i :: 0 <= i < |s| && key(s[i]) == k ==> s[i] in r
    ensures |r| <= |s|
  {
    if s == [] then []
    else (if key(s[0]) == k then [s[0]] else []) + FilterKey(s[1..], key, k)
  }

  /** `s.reduce((sum, x) => sum + key(x), 0)`. */
  function SumBy<T>(s: seq<T>, key: T -> int): int {
    if s == [] then 0 else key(s[0]) + SumBy(s[1..], key)
  }

  lemma {:induction false} FilterKeyCons<T>(x: T, s: seq<T>, key: T -> int, k: int)
    ensures FilterKey([x] + s, key, k) == (if key(x) == k then [x] else []) + FilterKey(s, key, k)
  {
    assert ([x] + s)[1..] == s;
  }

  /**
   * Inserting x does not reorder the elements that share a key: every element
   * that InsertDesc places before x has a strictly larger key than x.
   */
  lemma {:induction false} FilterInsert<T>(x: T, s: seq<T>, key: T -> int, k: int)
    ensures FilterKey(InsertDesc(x, s, key), key, k) == FilterKey([x] + s, key, k)
  {
    if s == [] || key(x) >= key(s[0]) {
    } else {
      var s0, tail := s[0], s[1..];
      assert s == [s0] + tail;
      var fx := if key(x) == k then [x] else [];
      var f0 := if key(s0) == k then [s0] else [];
      assert fx == [] || f0 == [];
      calc {
        FilterKey(InsertDesc(x, s, key), key, k);
        { assert InsertDesc(x, s, key) == [s0] + InsertDesc(x, tail, key); }
        FilterKey([s0] + InsertDesc(x, tail, key), key, k);
        { FilterKeyCons(s0, InsertDesc(x, tail, key), key, k); }
        f0 + FilterKey(InsertDesc(x, tail, key), key, k);
        { FilterInsert(x, tail, key, k); }
        f0 + FilterKey([x] + tail, key, k);
        { FilterKeyCons(x, tail, key, k); }
        f0 + (fx + FilterKey(tail, key, k));
        fx + (f0 + FilterKey(tail, key, k));
        { FilterKeyCons(s0, tail, key, k); }
        fx + FilterKey(s, key, k);
        { FilterKeyCons(x, s, key, k); }
        FilterKey([x] + s, key, k);
      }
    }
  }

  /**
   * Sorting is stable: the submissions sharing one key keep their original
   * relative order, so filtering on a key before or after sorting gives the
   * same sequence.
   */
  lemma {:induction false} FilterSortDesc<T>(s: seq<T>, key: T -> int, k: int)
    ensures FilterKey(SortDesc(s, key), key, k) == FilterKey(s, key, k)
  {
    if s != [] {
      var tail := SortDesc(s[1..], key);
      FilterSortDesc(s[1..], key, k);
      FilterInsert(s[0], tail, key, k);
      FilterKeyCons(s[0], tail, key, k);
      FilterKeyCons(s[0], s[1..], key, k);
      assert s == [s[0]] + s[1..];
    }
  }

  lemma {:induction false} SumByInsert<T>(x: T, s: seq<T>, key: T -> int)
    ensures SumBy(InsertDesc(x, s, key), key) == key(x) + SumBy(s, key)
  {
    if s == [] || key(x) >= key(s[0]) {
      assert ([x] + s)[1..] == s;
    } else {
      SumByInsert(x, s[1..], key);
      assert ([s[0]] + InsertDesc(x, s[1..], key))[1..] == InsertDesc(x, s[1..], key);
    }
  }

  /** The sum of a key does not depend on the order the elements are listed in. */
  lemma {:induction false} SumBySortDesc<T>(s: seq<T>, key: T -> int)
    ensures SumBy(SortDesc(s, key), key) == SumBy(s, key)
  {
    if s != [] {
      SumBySortDesc(s[1..], key);
      SumByInsert(s[0], SortDesc(s[1..], key), key);
    }
  }

  /** The first element of a non-empty sorted sequence has the largest key. */
  lemma HeadIsMax<T>(s: seq<T>, key: T -> int, y: T)
    requires SortedDesc(s, key) && y in s
    ensures key(s[0]) >= key(y)
  {
    var j :| 0 <= j < |s| && s[j] == y;
    assert j == 0 || key(s[0]) >= key(s[j]);
  }
}
