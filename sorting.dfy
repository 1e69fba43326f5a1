/** Python's `sorted(xs, key=key, reverse=True)` on integer keys: a stable sort in
    non-increasing key order. Python's sort keeps elements with equal keys in
    their original order also when `reverse=True`. */
module Sorting {

  ghost predicate SortedDesc<T>(s: seq<T>, key: T -> int)
  {
    forall i, j :: 0 <= i < j < |s| ==> key(s[i]) >= key(s[j])
  }

  /** The elements of `s` whose key is `k`, in their order in `s`. */
  function KeyClass<T>(s: seq<T>, key: T -> int, k: int): (r: seq<T>)
    ensures forall i :: 0 <= i < |r| ==> key(r[i]) == k
  {
    if s == [] then []
    else (if key(s[0]) == k then [s[0]] else []) + KeyClass(s[1..], key, k)
  }

  /** Puts `x` in front of the first element whose key is not larger than its own. */
  function Insert<T>(x: T, s: seq<T>, key: T -> int): (r: seq<T>)
    ensures multiset(r) == multiset(s) + multiset{x}
    ensures |r| == |s| + 1
  {
    if s == [] || key(s[0]) <= key(x) then [x] + s
    else
      var r := [s[0]] + Insert(x, s[1..], key);
      assert s == [s[0]] + s[1..];
      r
  }

  lemma {:induction false} InsertSorted<T>(x: T, s: seq<T>, key: T -> int)
    requires SortedDesc(s, key)
    ensures SortedDesc(Insert(x, s, key), key)
  {
    if s == [] || key(s[0]) <= key(x) {
    } else {
      var t := Insert(x, s[1..], key);
      InsertSorted(x, s[1..], key);
      forall i | 0 <= i < |t|
        ensures key(t[i]) <= key(s[0])
      {
        assert t[i] in multiset(t);
        assert t[i] in multiset(s[1..]) || t[i] == x;
        if t[i] != x {
          var j :| 0 <= j < |s[1..]| && s[1..][j] == t[i];
          assert s[1..][j] == s[j + 1];
        }
      }
      assert Insert(x, s, key) == [s[0]] + t;
    }
  }

  function SortDesc<T>(s: seq<T>, key: T -> int): (r: seq<T>)
    ensures SortedDesc(r, key)
    ensures multiset(r) == multiset(s)
    ensures |r| == |s|
  {
    if s == [] then []
    else
      assert s == [s[0]] + s[1..];
      InsertSorted(s[0], SortDesc(s[1..], key), key);
      Insert(s[0], SortDesc(s[1..], key), key)
  }

  /** Inserting never reorders elements of equal key: `x` goes in front of all of them. */
  lemma {:induction false} InsertKeyClass<T>(x: T, s: seq<T>, key: T -> int, k: int)
    ensures KeyClass(Insert(x, s, key), key, k) == (if key(x) == k then [x] else []) + KeyClass(s, key, k)
  {
    if s == [] || key(s[0]) <= key(x) {
      assert ([x] + s)[1..] == s;
    } else {
      var r := [s[0]] + Insert(x, s[1..], key);
      assert r[1..] == Insert(x, s[1..], key);
      InsertKeyClass(x, s[1..], key, k);
    }
  }

  /** Stability: the elements of any one key keep their relative order. */
  lemma {:induction false} SortStable<T>(s: seq<T>, key: T -> int, k: int)
    ensures KeyClass(SortDesc(s, key), key, k) == KeyClass(s, key, k)
  {
    if s != [] {
      SortStable(s[1..], key, k);
      InsertKeyClass(s[0], SortDesc(s[1..], key), key, k);
    }
  }

  /** A list already in order is returned unchanged. */
  lemma {:induction false} SortSorted<T>(s: seq<T>, key: T -> int)
    requires SortedDesc(s, key)
    ensures SortDesc(s, key) == s
  {
    if s != [] {
      assert SortedDesc(s[1..], key);
      SortSorted(s[1..], key);
    }
  }

  /** The first element of the sorted list has the largest key. */
  lemma SortedHeadIsMax<T>(s: seq<T>, key: T -> int, x: T)
    requires x in s
    ensures SortDesc(s, key) != [] && key(SortDesc(s, key)[0]) >= key(x)
  {
    var r := SortDesc(s, key);
    assert x in multiset(s);
    assert x in multiset(r);
    SortedFirstIsMax(r, key, x);
  }

  /** The head of a sorted sequence has the largest key. */
  lemma SortedFirstIsMax<T>(s: seq<T>, key: T -> int, x: T)
    requires SortedDesc(s, key) && x in s
    ensures key(s[0]) >= key(x)
  {
    var i :| 0 <= i < |s| && s[i] == x;
    if i > 0 {
      assert key(s[0]) >= key(s[i]);
    }
  }
}
