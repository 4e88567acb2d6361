/** Python's `sorted(xs, key=k, reverse=True)`: a stable sort by a key,
    largest first. Elements are inserted one at a time in input order, each
    after every element whose key is at least its own. */
module Sorting {
  import opened Text

  ghost predicate SortedDesc<T>(xs: seq<T>, key: T -> int) {
    forall i, j :: 0 <= i < j < |xs| ==> key(xs[i]) >= key(xs[j])
  }

  function InsertDesc<T>(s: seq<T>, x: T, key: T -> int): (r: seq<T>)
    requires SortedDesc(s, key)
    ensures SortedDesc(r, key)
    ensures multiset(r) == multiset(s) + multiset{x}
    ensures |r| == |s| + 1
    ensures forall e :: e in r ==> e == x || e in s
    decreases |s|
  {
    if |s| == 0 then [x]
    else if key(s[0]) >= key(x) then
      var rest := InsertDesc(s[1..], x, key);
      assert s == [s[0]] + s[1..];
      HeadDominates(s, key);
      ConsSortedDesc(s[0], rest, key);
      [s[0]] + rest
    else
      HeadDominates(s, key);
      ConsSortedDesc(x, s, key);
      [x] + s
  }

  /** In a sorted list the head's key is at least every key. */
  lemma HeadDominates<T>(s: seq<T>, key: T -> int)
    requires SortedDesc(s, key) && |s| > 0
    ensures forall e :: e in s ==> key(s[0]) >= key(e)
  {
    forall e | e in s ensures key(s[0]) >= key(e) {
      var k :| 0 <= k < |s| && s[k] == e;
    }
  }

  lemma ConsSortedDesc<T>(y: T, s: seq<T>, key: T -> int)
    requires SortedDesc(s, key) && forall e :: e in s ==> key(y) >= key(e)
    ensures SortedDesc([y] + s, key)
  {
    var r := [y] + s;
    forall i, j | 0 <= i < j < |r| ensures key(r[i]) >= key(r[j]) {
      assert r[j] == s[j - 1];
      assert s[j - 1] in s;
      if i > 0 {
        assert r[i] == s[i - 1];
      }
    }
  }

  function SortDesc<T>(xs: seq<T>, key: T -> int): (r: seq<T>)
    ensures SortedDesc(r, key)
    ensures multiset(r) == multiset(xs)
    ensures |r| == |xs|
    decreases |xs|
  {
    if |xs| == 0 then []
    else
      assert xs == xs[..|xs| - 1] + [xs[|xs| - 1]];
      InsertDesc(SortDesc(xs[..|xs| - 1], key), xs[|xs| - 1], key)
  }

  /** Stability: a list already in order is left as it is, ties
      included. */
  lemma {:induction false} SortDescOfSorted<T>(xs: seq<T>, key: T -> int)
    requires SortedDesc(xs, key)
    ensures SortDesc(xs, key) == xs
    decreases |xs|
  {
    if |xs| > 0 {
      var prefix := xs[..|xs| - 1];
      var x := xs[|xs| - 1];
      SortedPrefix(xs, key);
      SortDescOfSorted(prefix, key);
      InsertAfterNotSmaller(prefix, x, key);
      SortDescSnoc(xs, prefix, x, key);
    }
  }

  lemma SortedPrefix<T>(xs: seq<T>, key: T -> int)
    requires SortedDesc(xs, key) && |xs| > 0
    ensures SortedDesc(xs[..|xs| - 1], key)
    ensures forall i :: 0 <= i < |xs| - 1 ==> key(xs[i]) >= key(xs[|xs| - 1])
  {
    var prefix := xs[..|xs| - 1];
    assert forall i :: 0 <= i < |prefix| ==> prefix[i] == xs[i];
  }

  lemma SortDescSnoc<T>(xs: seq<T>, prefix: seq<T>, x: T, key: T -> int)
    requires |xs| > 0 && prefix == xs[..|xs| - 1] && x == xs[|xs| - 1]
    requires SortDesc(prefix, key) == prefix && InsertDesc(prefix, x, key) == prefix + [x]
    ensures SortDesc(xs, key) == xs
  {
    assert xs == prefix + [x];
  }

  lemma {:induction false} InsertAfterNotSmaller<T>(s: seq<T>, x: T, key: T -> int)
    requires forall i :: 0 <= i < |s| ==> key(s[i]) >= key(x)
    requires SortedDesc(s, key)
    ensures InsertDesc(s, x, key) == s + [x]
    decreases |s|
  {
    if |s| > 0 {
      InsertAfterNotSmaller(s[1..], x, key);
      assert s == [s[0]] + s[1..];
    }
  }

  // ---------------------------------------------------------------------
  // Ascending by a string key: `sorted(xs, key=k)` in code-point order

  ghost predicate SortedLex<T>(xs: seq<T>, key: T -> string) {
    forall i, j :: 0 <= i < j < |xs| ==> LexLe(key(xs[i]), key(xs[j]))
  }

  function InsertLex<T>(s: seq<T>, x: T, key: T -> string): (r: seq<T>)
    requires SortedLex(s, key)
    ensures SortedLex(r, key)
    ensures multiset(r) == multiset(s) + multiset{x}
    ensures |r| == |s| + 1
    decreases |s|
  {
    if |s| == 0 then [x]
    else if LexLe(key(s[0]), key(x)) then
      var rest := InsertLex(s[1..], x, key);
      assert s == [s[0]] + s[1..];
      var r := [s[0]] + rest;
      assert SortedLex(r, key) by {
        forall i, j | 0 <= i < j < |r| ensures LexLe(key(r[i]), key(r[j])) {
          if i == 0 {
            assert r[j] == rest[j - 1];
            assert rest[j - 1] in multiset(rest);
            assert rest[j - 1] == x || rest[j - 1] in s[1..];
          } else {
            assert r[i] == rest[i - 1] && r[j] == rest[j - 1];
          }
        }
      }
      r
    else
      var r := [x] + s;
      LexLeTotal(key(s[0]), key(x));
      assert SortedLex(r, key) by {
        forall i, j | 0 <= i < j < |r| ensures LexLe(key(r[i]), key(r[j])) {
          assert r[j] == s[j - 1];
          if i > 0 {
            assert r[i] == s[i - 1];
          } else if j > 1 {
            LexLeTransitive(key(x), key(s[0]), key(s[j - 1]));
          }
        }
      }
      r
  }

  function SortLex<T>(xs: seq<T>, key: T -> string): (r: seq<T>)
    ensures SortedLex(r, key)
    ensures multiset(r) == multiset(xs)
    ensures |r| == |xs|
    decreases |xs|
  {
    if |xs| == 0 then []
    else
      assert xs == xs[..|xs| - 1] + [xs[|xs| - 1]];
      InsertLex(SortLex(xs[..|xs| - 1], key), xs[|xs| - 1], key)
  }
}
