/**
 The order in which a container's files are listed: a stable sort on a
 text key (Python's `list.sort(key=...)`), with keys compared as code-point
 sequences.
 */
module FileOrder {
  import Text

  predicate SortedBy<T>(s: seq<T>, key: T -> string) {
    forall i, j :: 0 <= i < j < |s| ==> Text.StrLe(key(s[i]), key(s[j]))
  }

  /** The elements of `s` whose key is `k`, in their order in `s`. */
  function WithKey<T>(s: seq<T>, key: T -> string, k: string): (r: seq<T>)
    ensures |r| <= |s|
    ensures forall i :: 0 <= i < |r| ==> key(r[i]) == k
  {
    if |s| == 0 then []
    else WithKey(s[..|s| - 1], key, k) + (if key(s[|s| - 1]) == k then [s[|s| - 1]] else [])
  }

  lemma WithKeyAppend<T>(s: seq<T>, x: T, key: T -> string, k: string)
    ensures WithKey(s + [x], key, k) == WithKey(s, key, k) + (if key(x) == k then [x] else [])
  {
    assert (s + [x])[..|s|] == s;
  }

  lemma {:induction false} WithKeyNone<T>(s: seq<T>, key: T -> string, k: string)
    requires forall j :: 0 <= j < |s| ==> key(s[j]) != k
    ensures WithKey(s, key, k) == []
  {
    if |s| > 0 {
      WithKeyNone(s[..|s| - 1], key, k);
    }
  }

  /** The first element with key `k` heads the elements with that key. */
  lemma {:induction false} WithKeyFirst<T>(s: seq<T>, key: T -> string, k: string, i: nat)
    requires i < |s| && key(s[i]) == k
    requires forall j :: 0 <= j < i ==> key(s[j]) != k
    ensures |WithKey(s, key, k)| > 0 && WithKey(s, key, k)[0] == s[i]
  {
    var init := s[..|s| - 1];
    if i == |s| - 1 {
      WithKeyNone(init, key, k);
    } else {
      WithKeyFirst(init, key, k, i);
    }
  }

  /** Places `x` after every element of sorted `s` whose key is not greater than its own. */
  function Insert<T>(s: seq<T>, x: T, key: T -> string): (r: seq<T>)
    ensures |r| == |s| + 1
  {
    if |s| == 0 then [x]
    else if Text.StrLe(key(s[|s| - 1]), key(x)) then s + [x]
    else Insert(s[..|s| - 1], x, key) + [s[|s| - 1]]
  }

  lemma {:induction false} InsertMultiset<T>(s: seq<T>, x: T, key: T -> string)
    ensures multiset(Insert(s, x, key)) == multiset(s) + multiset{x}
  {
    if |s| > 0 && !Text.StrLe(key(s[|s| - 1]), key(x)) {
      var init := s[..|s| - 1];
      InsertMultiset(init, x, key);
      assert s == init + [s[|s| - 1]];
    }
  }

  lemma {:induction false} InsertSorted<T>(s: seq<T>, x: T, key: T -> string)
    requires SortedBy(s, key)
    ensures SortedBy(Insert(s, x, key), key)
  {
    if |s| == 0 {
    } else if Text.StrLe(key(s[|s| - 1]), key(x)) {
      var r := s + [x];
      forall i, j | 0 <= i < j < |r|
        ensures Text.StrLe(key(r[i]), key(r[j]))
      {
        if j == |s| && i < |s| - 1 {
          Text.StrLeTransitive(key(s[i]), key(s[|s| - 1]), key(x));
        }
      }
    } else {
      var init := s[..|s| - 1];
      var last := s[|s| - 1];
      InsertSorted(init, x, key);
      InsertMultiset(init, x, key);
      Text.StrLeTotal(key(last), key(x));
      var ins := Insert(init, x, key);
      var r := ins + [last];
      forall i, j | 0 <= i < j < |r|
        ensures Text.StrLe(key(r[i]), key(r[j]))
      {
        if j == |ins| {
          assert r[i] in multiset(ins);
          if r[i] != x {
            assert r[i] in multiset(init);
            var m :| 0 <= m < |init| && init[m] == r[i];
            assert s[m] == r[i];
          }
        } else {
          assert r[i] == ins[i] && r[j] == ins[j];
        }
      }
    }
  }

  /** Inserting `x` adds it at the end of the run of elements sharing its key. */
  lemma {:induction false} InsertWithKey<T>(s: seq<T>, x: T, key: T -> string, k: string)
    ensures WithKey(Insert(s, x, key), key, k) == WithKey(s, key, k) + (if key(x) == k then [x] else [])
  {
    if |s| == 0 {
      WithKeyAppend([], x, key, k);
    } else if Text.StrLe(key(s[|s| - 1]), key(x)) {
      WithKeyAppend(s, x, key, k);
    } else {
      var init := s[..|s| - 1];
      var last := s[|s| - 1];
      assert s == init + [last];
      InsertWithKey(init, x, key, k);
      WithKeyAppend(Insert(init, x, key), last, key, k);
      WithKeyAppend(init, last, key, k);
      if key(x) == k && key(last) == k {
        Text.StrLeReflexive(k);
      }
    }
  }

  /**
   The sort: the result is ordered by key and holds the same elements
   (`SortByKeyStable` adds that equal keys keep their relative order).
   */
  function SortByKey<T>(xs: seq<T>, key: T -> string): (r: seq<T>)
    ensures SortedBy(r, key)
    ensures multiset(r) == multiset(xs)
  {
    if |xs| == 0 then []
    else
      var init := xs[..|xs| - 1];
      var x := xs[|xs| - 1];
      var s := SortByKey(init, key);
      InsertSorted(s, x, key);
      InsertMultiset(s, x, key);
      MultisetOfLast(xs);
      Insert(s, x, key)
  }

  lemma MultisetOfLast<T>(xs: seq<T>)
    requires |xs| > 0
    ensures multiset(xs) == multiset(xs[..|xs| - 1]) + multiset{xs[|xs| - 1]}
  {
    assert xs == xs[..|xs| - 1] + [xs[|xs| - 1]];
  }

  /** Elements with equal keys come out of the sort in their input order. */
  lemma {:induction false} SortByKeyStable<T>(xs: seq<T>, key: T -> string, k: string)
    ensures WithKey(SortByKey(xs, key), key, k) == WithKey(xs, key, k)
  {
    if |xs| > 0 {
      var init := xs[..|xs| - 1];
      var x := xs[|xs| - 1];
      SortByKeyStable(init, key, k);
      InsertWithKey(SortByKey(init, key), x, key, k);
    }
  }

  /** A prefix of a sorted sequence is sorted. */
  lemma SortedInit<T>(xs: seq<T>, key: T -> string)
    requires |xs| > 0 && SortedBy(xs, key)
    ensures SortedBy(xs[..|xs| - 1], key)
  {
    var init := xs[..|xs| - 1];
    forall i, j | 0 <= i < j < |init|
      ensures Text.StrLe(key(init[i]), key(init[j]))
    {
      assert init[i] == xs[i] && init[j] == xs[j];
    }
  }

  /** An element whose key is not below the last one's goes at the end. */
  lemma InsertAtEnd<T>(s: seq<T>, x: T, key: T -> string)
    requires |s| == 0 || Text.StrLe(key(s[|s| - 1]), key(x))
    ensures Insert(s, x, key) == s + [x]
  {
  }

  /** Sorting sorted input changes nothing. */
  lemma {:induction false} SortSortedIsIdentity<T>(xs: seq<T>, key: T -> string)
    requires SortedBy(xs, key)
    ensures SortByKey(xs, key) == xs
  {
    if |xs| > 0 {
      var init := xs[..|xs| - 1];
      var x := xs[|xs| - 1];
      SortedInit(xs, key);
      SortSortedIsIdentity(init, key);
      if |init| > 0 {
        assert Text.StrLe(key(init[|init| - 1]), key(x)) by {
          assert init[|init| - 1] == xs[|xs| - 2];
        }
      }
      InsertAtEnd(init, x, key);
      assert init + [x] == xs;
    }
  }
}
