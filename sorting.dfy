/**
 * A stable sort by an integer key, in descending order. It stands for
 * `Array.prototype.sort` with the comparator `(a, b) => key(b) - key(a)`,
 * which ECMAScript 2019 and later require to be stable, and (with a negated
 * key) for MongoDB's `.sort({ field: 1 })`.
 */
module Sorting {

  /** `s` is non-increasing by `key`. */
  predicate SortedDesc<T>(s: seq<T>, key: T -> int)
  {
    forall i, j :: 0 <= i < j < |s| ==> key(s[i]) >= key(s[j])
  }

  /** The elements of `s` whose key is `k`, in their original order. */
  function WithKey<T>(s: seq<T>, key: T -> int, k: int): (r: seq<T>)
    ensures |r| <= |s|
  {
    if |s| == 0 then []
    else if key(s[0]) == k then [s[0]] + WithKey(s[1..], key, k)
    else WithKey(s[1..], key, k)
  }

  /** Put `a` in front of the first element whose key is not larger than its own. */
  function InsertBefore<T>(a: T, t: seq<T>, key: T -> int): seq<T>
  {
    if |t| == 0 || key(t[0]) <= key(a) then [a] + t
    else [t[0]] + InsertBefore(a, t[1..], key)
  }

  /** Stable insertion sort, largest key first. */
  function SortDesc<T>(s: seq<T>, key: T -> int): seq<T>
  {
    if |s| == 0 then [] else InsertBefore(s[0], SortDesc(s[1..], key), key)
  }

  lemma {:induction false} InsertBeforeMultiset<T>(a: T, t: seq<T>, key: T -> int)
    ensures multiset(InsertBefore(a, t, key)) == multiset(t) + multiset{a}
  {
    if |t| > 0 && key(t[0]) > key(a) {
      InsertBeforeMultiset(a, t[1..], key);
      assert t == [t[0]] + t[1..];
    }
  }

  lemma {:induction false} InsertBeforeSorted<T>(a: T, t: seq<T>, key: T -> int)
    requires SortedDesc(t, key)
    ensures SortedDesc(InsertBefore(a, t, key), key)
  {
    var r := InsertBefore(a, t, key);
    if |t| > 0 && key(t[0]) > key(a) {
      var rest := InsertBefore(a, t[1..], key);
      InsertBeforeSorted(a, t[1..], key);
      assert r == [t[0]] + rest;
      forall j | 0 < j < |r| ensures key(r[0]) >= key(r[j]) {
        var x := rest[j - 1];
        assert r[j] == x && x in rest;
        if x != a {
          InsertBeforeElements(a, t[1..], key, x);
          var k :| 0 <= k < |t[1..]| && t[1..][k] == x;
          assert t[k + 1] == x;
        }
      }
    }
  }

  /** Inserting adds exactly `a` to the elements. */
  lemma {:induction false} InsertBeforeElements<T>(a: T, t: seq<T>, key: T -> int, x: T)
    ensures x in InsertBefore(a, t, key) <==> x == a || x in t
  {
    if |t| > 0 && key(t[0]) > key(a) {
      InsertBeforeElements(a, t[1..], key, x);
      assert t == [t[0]] + t[1..];
    }
  }

  lemma {:induction false} InsertBeforeWithKey<T>(a: T, t: seq<T>, key: T -> int, k: int)
    ensures WithKey(InsertBefore(a, t, key), key, k)
            == if key(a) == k then [a] + WithKey(t, key, k) else WithKey(t, key, k)
  {
    var r := InsertBefore(a, t, key);
    if |t| == 0 || key(t[0]) <= key(a) {
      assert r[0] == a && r[1..] == t;
    } else {
      InsertBeforeWithKey(a, t[1..], key, k);
      assert r[0] == t[0] && r[1..] == InsertBefore(a, t[1..], key);
    }
  }

  /** The sort is non-increasing, a permutation, and keeps equal keys in input order. */
  lemma {:induction false} SortDescCorrect<T>(s: seq<T>, key: T -> int)
    ensures SortedDesc(SortDesc(s, key), key)
    ensures multiset(SortDesc(s, key)) == multiset(s)
    ensures |SortDesc(s, key)| == |s|
  {
    if |s| > 0 {
      SortDescCorrect(s[1..], key);
      InsertBeforeSorted(s[0], SortDesc(s[1..], key), key);
      InsertBeforeMultiset(s[0], SortDesc(s[1..], key), key);
      assert s == [s[0]] + s[1..];
      assert |SortDesc(s, key)| == |multiset(SortDesc(s, key))|;
    }
  }

  /** The sort keeps exactly the elements it was given. */
  lemma SortDescMembers<T>(s: seq<T>, key: T -> int, x: T)
    ensures x in SortDesc(s, key) <==> x in s
  {
    SortDescCorrect(s, key);
    assert x in SortDesc(s, key) <==> x in multiset(SortDesc(s, key));
  }

  /** Stability: the elements sharing a key keep their input order. */
  lemma {:induction false} SortDescStable<T>(s: seq<T>, key: T -> int, k: int)
    ensures WithKey(SortDesc(s, key), key, k) == WithKey(s, key, k)
  {
    if |s| > 0 {
      SortDescStable(s[1..], key, k);
      InsertBeforeWithKey(s[0], SortDesc(s[1..], key), key, k);
    }
  }
}
