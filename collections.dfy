/**
 * What the database does with a collection when the handlers query it: keep
 * the documents that match a filter, and sort them by a key. The sort is
 * stable (SortByStable): documents with equal keys stay in the order the
 * collection holds them.
 */
module Collections {
  import opened Wrappers

  /** The documents of `s` for which `keep` holds, in their original order. */
  function Filter<T>(s: seq<T>, keep: T -> bool): (r: seq<T>)
    ensures |r| <= |s|
    ensures forall x :: x in s ==> multiset(r)[x] == if keep(x) then multiset(s)[x] else 0
    ensures forall x :: x in r ==> x in s && keep(x)
    ensures forall x :: x in s && keep(x) ==> x in r
  {
    if s == [] then []
    else
      assert s == [s[0]] + s[1..];
      if keep(s[0]) then [s[0]] + Filter(s[1..], keep)
      else Filter(s[1..], keep)
  }

  /** Filtering keeps order: the kept part of a concatenation is the concatenation of the kept parts. */
  lemma {:induction false} FilterConcat<T>(a: seq<T>, b: seq<T>, keep: T -> bool)
    ensures Filter(a + b, keep) == Filter(a, keep) + Filter(b, keep)
  {
    if a != [] {
      var ab := a + b;
      assert ab[0] == a[0] && ab[1..] == a[1..] + b;
      FilterConcat(a[1..], b, keep);
      FilterStep(ab, keep);
      FilterStep(a, keep);
    } else {
      assert a + b == b;
    }
  }

  /** One step of Filter. */
  lemma FilterStep<T>(s: seq<T>, keep: T -> bool)
    requires s != []
    ensures Filter(s, keep) == if keep(s[0]) then [s[0]] + Filter(s[1..], keep) else Filter(s[1..], keep)
  {
  }

  ghost predicate SortedBy<T>(s: seq<T>, key: T -> int) {
    forall i, j :: 0 <= i < j < |s| ==> key(s[i]) <= key(s[j])
  }

  /** Insert `x` before the first element whose key is not smaller than its own. */
  function Insert<T>(x: T, s: seq<T>, key: T -> int): (r: seq<T>)
    ensures multiset(r) == multiset(s) + multiset{x}
  {
    if s == [] || key(x) <= key(s[0]) then [x] + s
    else
      assert s == [s[0]] + s[1..];
      [s[0]] + Insert(x, s[1..], key)
  }

  /** A lower bound of the keys of `s` and of `x` bounds the keys after the insertion. */
  lemma {:induction false} InsertKeepsLowerBound<T>(x: T, s: seq<T>, key: T -> int, bound: int)
    requires bound <= key(x) && forall k :: 0 <= k < |s| ==> bound <= key(s[k])
    ensures forall k :: 0 <= k < |Insert(x, s, key)| ==> bound <= key(Insert(x, s, key)[k])
  {
    if s != [] && key(x) > key(s[0]) {
      InsertKeepsLowerBound(x, s[1..], key, bound);
    }
  }

  /** Inserting into a sorted sequence keeps it sorted. */
  lemma {:induction false} InsertSorted<T>(x: T, s: seq<T>, key: T -> int)
    requires SortedBy(s, key)
    ensures SortedBy(Insert(x, s, key), key)
  {
    if s == [] || key(x) <= key(s[0]) {
      var r := Insert(x, s, key);
      forall i, j | 0 <= i < j < |r| ensures key(r[i]) <= key(r[j]) {
        if i == 0 {
          assert key(s[0]) <= key(s[j - 1]);
        }
      }
    } else {
      var rest := Insert(x, s[1..], key);
      InsertSorted(x, s[1..], key);
      InsertKeepsLowerBound(x, s[1..], key, key(s[0]));
      var r := [s[0]] + rest;
      assert r == Insert(x, s, key);
      forall i, j | 0 <= i < j < |r| ensures key(r[i]) <= key(r[j]) {
        assert r[j] == rest[j - 1];
        if i > 0 {
          assert r[i] == rest[i - 1];
        }
      }
    }
  }

  /**
   * Filtering an insertion by a predicate under which all elements share one
   * key: `x` lands before every kept element, since those before it have a
   * smaller key.
   */
  lemma {:induction false} FilterInsert<T>(x: T, s: seq<T>, key: T -> int, same: T -> bool)
    requires same(x) ==> forall y :: same(y) ==> key(y) == key(x)
    ensures Filter(Insert(x, s, key), same) == if same(x) then [x] + Filter(s, same) else Filter(s, same)
  {
    var r := Insert(x, s, key);
    if s == [] || key(x) <= key(s[0]) {
      assert r[0] == x && r[1..] == s;
    } else {
      assert r[0] == s[0] && r[1..] == Insert(x, s[1..], key);
      FilterInsert(x, s[1..], key, same);
    }
  }

  /** The elements of `s` in ascending order of `key`. */
  function SortBy<T>(s: seq<T>, key: T -> int): (r: seq<T>)
    ensures SortedBy(r, key)
    ensures multiset(r) == multiset(s)
  {
    if s == [] then []
    else
      assert s == [s[0]] + s[1..];
      InsertSorted(s[0], SortBy(s[1..], key), key);
      Insert(s[0], SortBy(s[1..], key), key)
  }

  /**
   * The sort is stable: the elements of any one key (or any set of elements
   * sharing a key) come out in the order they went in.
   */
  lemma {:induction false} SortByStable<T>(s: seq<T>, key: T -> int, same: T -> bool)
    requires forall x, y :: same(x) && same(y) ==> key(x) == key(y)
    ensures Filter(SortBy(s, key), same) == Filter(s, same)
  {
    if s != [] {
      SortByStable(s[1..], key, same);
      FilterInsert(s[0], SortBy(s[1..], key), key, same);
    }
  }

  /** Sorting does not change the number of elements. */
  lemma SortByLength<T>(s: seq<T>, key: T -> int)
    ensures |SortBy(s, key)| == |s|
  {
    assert |multiset(SortBy(s, key))| == |multiset(s)|;
  }

  /** The window `[skip, skip + limit)` of `s`, clipped to its length (a query's skip and limit). */
  function Window<T>(s: seq<T>, skip: nat, limit: nat): (r: seq<T>)
    ensures |r| == if skip >= |s| then 0 else if skip + limit <= |s| then limit else |s| - skip
    ensures forall k :: 0 <= k < |r| ==> r[k] == s[skip + k]
  {
    if skip >= |s| then [] else if skip + limit <= |s| then s[skip..skip + limit] else s[skip..]
  }

  /** The position of the first element of `s` for which `found` holds, if any. */
  function FirstIndex<T>(s: seq<T>, found: T -> bool): (r: Option<nat>)
    ensures r.Some? ==> r.value < |s| && found(s[r.value])
    ensures r.Some? ==> forall k :: 0 <= k < r.value ==> !found(s[k])
    ensures r.None? <==> forall k :: 0 <= k < |s| ==> !found(s[k])
  {
    if s == [] then None
    else if found(s[0]) then Some(0)
    else
      match FirstIndex(s[1..], found)
      case None => None
      case Some(i) => Some(i + 1)
  }
}
