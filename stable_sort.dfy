/**
 * List.sort with a comparator that orders by an integer key, largest first.
 * Java's List.sort is a stable merge sort; the model is a stable insertion
 * sort, which yields the same list: the one descending permutation of the
 * input that keeps equal-key elements in their input order.
 */
module StableSort {

  /** Puts x in front of the first element whose key is not larger than x's. */
  function Insert<T>(x: T, s: seq<T>, key: T -> int): (r: seq<T>)
    ensures multiset(r) == multiset(s) + multiset{x}
  {
    if s == [] then [x]
    else if key(s[0]) <= key(x) then [x] + s
    else
      assert s == [s[0]] + s[1..];
      [s[0]] + Insert(x, s[1..], key)
  }

  function SortDesc<T>(s: seq<T>, key: T -> int): (r: seq<T>)
    ensures multiset(r) == multiset(s)
    ensures |r| == |s|
  {
    if s == [] then []
    else
      assert s == [s[0]] + s[1..];
      Insert(s[0], SortDesc(s[1..], key), key)
  }

  predicate SortedDesc<T>(s: seq<T>, key: T -> int) {
    forall i, j :: 0 <= i < j < |s| ==> key(s[i]) >= key(s[j])
  }

  /** The elements of s whose key is k, in their order in s. */
  function WithKey<T>(s: seq<T>, key: T -> int, k: int): seq<T> {
    if s == [] then [] else (if key(s[0]) == k then [s[0]] else []) + WithKey(s[1..], key, k)
  }

  lemma {:induction false} InsertSorted<T>(x: T, s: seq<T>, key: T -> int)
    requires SortedDesc(s, key)
    ensures SortedDesc(Insert(x, s, key), key)
  {
    if s != [] && key(s[0]) > key(x) {
      var tail := Insert(x, s[1..], key);
      InsertSorted(x, s[1..], key);
      forall j | 0 <= j < |tail| ensures key(s[0]) >= key(tail[j]) {
        assert tail[j] in multiset(tail);
        assert tail[j] == x || tail[j] in multiset(s[1..]);
        if tail[j] != x {
          assert tail[j] in s[1..];
        }
      }
      assert Insert(x, s, key) == [s[0]] + tail;
    }
  }

  /** Inserting x keeps the other equal-key elements behind it. */
  lemma {:induction false} InsertStable<T>(x: T, s: seq<T>, key: T -> int, k: int)
    ensures WithKey(Insert(x, s, key), key, k) == (if key(x) == k then [x] else []) + WithKey(s, key, k)
  {
    if s == [] {
      assert WithKey([x], key, k) == (if key(x) == k then [x] else []) + WithKey([x][1..], key, k);
    } else if key(s[0]) <= key(x) {
      assert ([x] + s)[1..] == s;
    } else {
      InsertStable(x, s[1..], key, k);
      var r := [s[0]] + Insert(x, s[1..], key);
      assert r[1..] == Insert(x, s[1..], key);
    }
  }

  /** The sort yields a descending permutation in which equal keys keep their order. */
  lemma {:induction false} SortDescCorrect<T>(s: seq<T>, key: T -> int)
    ensures SortedDesc(SortDesc(s, key), key)
    ensures multiset(SortDesc(s, key)) == multiset(s)
    ensures forall k :: WithKey(SortDesc(s, key), key, k) == WithKey(s, key, k)
  {
    if s != [] {
      SortDescCorrect(s[1..], key);
      InsertSorted(s[0], SortDesc(s[1..], key), key);
      forall k ensures WithKey(SortDesc(s, key), key, k) == WithKey(s, key, k) {
        InsertStable(s[0], SortDesc(s[1..], key), key, k);
      }
    }
  }

  /** A tail of a descending list holds its smallest keys. */
  lemma TailHoldsSmallest<T>(s: seq<T>, key: T -> int, from: nat)
    requires SortedDesc(s, key) && from <= |s|
    ensures forall i, j :: 0 <= i < from <= j < |s| ==> key(s[i]) >= key(s[j])
    ensures SortedDesc(s[from..], key)
  {
  }
}
