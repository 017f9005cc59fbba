/**
 * Ordering a list by a string key, as `sort.Slice` with a `<` on a string field does in
 * the rule generator. Go compares strings byte by byte, which is `LexLe` here.
 * Insertion sort stands in for the library's sort: it puts an element before the
 * first one whose key is not smaller, so elements with equal keys keep their order.
 */
module Sorting {
  import opened Strings

  ghost predicate SortedBy<T>(s: seq<T>, key: T -> string)
  {
    forall i, j :: 0 <= i < j < |s| ==> LexLe(key(s[i]), key(s[j]))
  }

  /** Put `x` in front of the first element whose key is not below its own. */
  function Insert<T>(x: T, s: seq<T>, key: T -> string): seq<T>
  {
    if s == [] then [x]
    else if LexLe(key(x), key(s[0])) then [x] + s
    else [s[0]] + Insert(x, s[1..], key)
  }

  function SortBy<T>(s: seq<T>, key: T -> string): seq<T>
  {
    if s == [] then [] else Insert(s[0], SortBy(s[1..], key), key)
  }

  lemma {:induction false} InsertPermutes<T>(x: T, s: seq<T>, key: T -> string)
    ensures multiset(Insert(x, s, key)) == multiset(s) + multiset{x}
  {
    if s != [] && !LexLe(key(x), key(s[0])) {
      InsertPermutes(x, s[1..], key);
      assert s == [s[0]] + s[1..];
    }
  }

  lemma {:induction false} InsertMembers<T>(x: T, s: seq<T>, key: T -> string)
    ensures forall k :: 0 <= k < |Insert(x, s, key)| ==> Insert(x, s, key)[k] == x || Insert(x, s, key)[k] in s
  {
    if s != [] && !LexLe(key(x), key(s[0])) {
      InsertMembers(x, s[1..], key);
      var r := Insert(x, s, key);
      forall k | 0 <= k < |r| ensures r[k] == x || r[k] in s {
        if k > 0 {
          assert r[k] == Insert(x, s[1..], key)[k - 1];
        }
      }
    }
  }

  lemma {:induction false} InsertSorted<T>(x: T, s: seq<T>, key: T -> string)
    requires SortedBy(s, key)
    ensures SortedBy(Insert(x, s, key), key)
  {
    if s == [] {
    } else if LexLe(key(x), key(s[0])) {
      var r := [x] + s;
      forall i, j | 0 <= i < j < |r| ensures LexLe(key(r[i]), key(r[j])) {
        if i == 0 && j > 1 {
          LexLeTransitive(key(x), key(s[0]), key(s[j - 1]));
        }
      }
    } else {
      assert SortedBy(s[1..], key);
      InsertSorted(x, s[1..], key);
      HeadBelowInsert(x, s, key);
    }
  }

  /** When `x` goes after the head, the head stays below everything after it. */
  lemma HeadBelowInsert<T>(x: T, s: seq<T>, key: T -> string)
    requires s != [] && SortedBy(s, key) && !LexLe(key(x), key(s[0]))
    requires SortedBy(Insert(x, s[1..], key), key)
    ensures SortedBy(Insert(x, s, key), key)
  {
    var rest := Insert(x, s[1..], key);
    InsertMembers(x, s[1..], key);
    LexLeTotal(key(x), key(s[0]));
    forall k | 0 <= k < |rest| ensures LexLe(key(s[0]), key(rest[k])) {
      if rest[k] != x {
        var m :| 0 <= m < |s[1..]| && s[1..][m] == rest[k];
        assert s[m + 1] == rest[k];
      }
    }
    var r := [s[0]] + rest;
    assert r == Insert(x, s, key);
    forall i, j | 0 <= i < j < |r| ensures LexLe(key(r[i]), key(r[j])) {
      if i > 0 {
        assert r[i] == rest[i - 1] && r[j] == rest[j - 1];
      }
    }
  }

  /** The result is ordered by key. */
  lemma {:induction false} SortBySorted<T>(s: seq<T>, key: T -> string)
    ensures SortedBy(SortBy(s, key), key)
  {
    if s != [] {
      SortBySorted(s[1..], key);
      InsertSorted(s[0], SortBy(s[1..], key), key);
    }
  }

  /** The result holds the same elements, each as often. */
  lemma {:induction false} SortByPermutes<T>(s: seq<T>, key: T -> string)
    ensures multiset(SortBy(s, key)) == multiset(s)
  {
    if s != [] {
      SortByPermutes(s[1..], key);
      InsertPermutes(s[0], SortBy(s[1..], key), key);
      assert s == [s[0]] + s[1..];
    }
  }

  /** The result holds exactly the elements of the input. */
  lemma SortByMembers<T>(s: seq<T>, key: T -> string)
    ensures forall x :: x in SortBy(s, key) <==> x in s
  {
    SortByPermutes(s, key);
    forall x ensures x in SortBy(s, key) <==> x in s {
      assert x in SortBy(s, key) <==> x in multiset(SortBy(s, key));
      assert x in s <==> x in multiset(s);
    }
  }

  /** No two elements share a key. */
  ghost predicate DistinctKeys<T>(s: seq<T>, key: T -> string)
  {
    forall i, j :: 0 <= i < j < |s| ==> key(s[i]) != key(s[j])
  }

  lemma {:induction false} InsertDistinct<T>(x: T, s: seq<T>, key: T -> string)
    requires DistinctKeys(s, key) && forall k :: 0 <= k < |s| ==> key(s[k]) != key(x)
    ensures DistinctKeys(Insert(x, s, key), key)
  {
    if s != [] && !LexLe(key(x), key(s[0])) {
      var rest := Insert(x, s[1..], key);
      assert DistinctKeys(s[1..], key);
      InsertDistinct(x, s[1..], key);
      InsertMembers(x, s[1..], key);
      forall k | 0 <= k < |rest| ensures key(rest[k]) != key(s[0]) {
        if rest[k] != x {
          var m :| 0 <= m < |s[1..]| && s[1..][m] == rest[k];
          assert s[m + 1] == rest[k];
        }
      }
      var r := [s[0]] + rest;
      forall i, j | 0 <= i < j < |r| ensures key(r[i]) != key(r[j]) {
        if i > 0 {
          assert r[i] == rest[i - 1] && r[j] == rest[j - 1];
        }
      }
    }
  }

  /** Sorting keeps keys distinct, so a sorted result with distinct keys is strictly increasing. */
  lemma {:induction false} SortByDistinct<T>(s: seq<T>, key: T -> string)
    requires DistinctKeys(s, key)
    ensures DistinctKeys(SortBy(s, key), key)
  {
    if s != [] {
      assert DistinctKeys(s[1..], key);
      SortByDistinct(s[1..], key);
      SortByPermutes(s[1..], key);
      var sorted := SortBy(s[1..], key);
      forall k | 0 <= k < |sorted| ensures key(sorted[k]) != key(s[0]) {
        assert sorted[k] in multiset(s[1..]);
        var m :| 0 <= m < |s[1..]| && s[1..][m] == sorted[k];
        assert s[m + 1] == sorted[k];
      }
      InsertDistinct(s[0], sorted, key);
    }
  }
}
