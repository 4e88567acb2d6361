/** Python dicts as insertion-ordered association lists: a new key goes to
    the end, assigning an existing key keeps its position. */
module OrderedMaps {
  import opened Seqs

  type OMap<K, V> = seq<(K, V)>

  function Keys<K, V>(m: OMap<K, V>): (ks: seq<K>)
    ensures |ks| == |m|
    ensures forall i :: 0 <= i < |m| ==> ks[i] == m[i].0
  {
    seq(|m|, i requires 0 <= i < |m| => m[i].0)
  }

  predicate HasKey<K(==), V>(m: OMap<K, V>, k: K) {
    exists i :: 0 <= i < |m| && m[i].0 == k
  }

  ghost predicate UniqueKeys<K, V>(m: OMap<K, V>) {
    forall i, j :: 0 <= i < j < |m| ==> m[i].0 != m[j].0
  }

  /** Position of the first entry with key `k`. */
  function IndexOf<K(==), V>(m: OMap<K, V>, k: K): (i: nat)
    requires HasKey(m, k)
    ensures i < |m| && m[i].0 == k
    ensures forall j :: 0 <= j < i ==> m[j].0 != k
  {
    if m[0].0 == k then 0
    else
      assert HasKey(m[1..], k) by {
        var j :| 0 <= j < |m| && m[j].0 == k;
        assert m[1..][j - 1] == m[j];
      }
      1 + IndexOf(m[1..], k)
  }

  /** `d[k]`. */
  function Get<K(==), V>(m: OMap<K, V>, k: K): V
    requires HasKey(m, k)
  {
    m[IndexOf(m, k)].1
  }

  /** `d[k] = v`. */
  function Put<K(==), V>(m: OMap<K, V>, k: K, v: V): (r: OMap<K, V>)
    ensures HasKey(m, k) ==> |r| == |m| && Keys(r) == Keys(m)
    ensures HasKey(m, k) ==> r == m[IndexOf(m, k) := (k, v)]
    ensures !HasKey(m, k) ==> r == m + [(k, v)]
    ensures HasKey(r, k) && Get(r, k) == v
    ensures forall j :: 0 <= j < |m| && m[j].0 != k ==> r[j] == m[j]
  {
    if HasKey(m, k) then
      var i := IndexOf(m, k);
      var r := m[i := (k, v)];
      assert Keys(r) == Keys(m);
      assert IndexOf(r, k) == i;
      r
    else
      var r := m + [(k, v)];
      assert r[|m|].0 == k;
      assert IndexOf(r, k) == |m|;
      r
  }

  /** A key's position depends only on the key sequence. */
  lemma IndexOfSameKeys<K, V>(a: OMap<K, V>, b: OMap<K, V>, k: K)
    requires Keys(a) == Keys(b) && HasKey(a, k)
    ensures HasKey(b, k) && IndexOf(b, k) == IndexOf(a, k)
  {
    var i := IndexOf(a, k);
    assert Keys(b)[i] == Keys(a)[i];
    assert HasKey(b, k);
    var j := IndexOf(b, k);
    assert Keys(b)[j] == Keys(a)[j];
  }

  /** Assigning one key leaves every other key's lookup as it was. */
  lemma GetPutOther<K, V>(m: OMap<K, V>, k: K, v: V, x: K)
    requires x != k
    ensures HasKey(Put(m, k, v), x) <==> HasKey(m, x)
    ensures HasKey(m, x) ==> Get(Put(m, k, v), x) == Get(m, x)
  {
    var r := Put(m, k, v);
    if HasKey(m, x) {
      var i := IndexOf(m, x);
      assert r[i] == m[i];
      assert forall j :: 0 <= j < i ==> r[j].0 != x;
      assert IndexOf(r, x) == i;
    }
    if HasKey(r, x) {
      var j :| 0 <= j < |r| && r[j].0 == x;
      assert j < |m| && r[j] == m[j];
    }
  }

  lemma PutUnique<K, V>(m: OMap<K, V>, k: K, v: V)
    requires UniqueKeys(m)
    ensures UniqueKeys(Put(m, k, v))
  {
    var r := Put(m, k, v);
    if HasKey(m, k) {
      forall i, j | 0 <= i < j < |r| ensures r[i].0 != r[j].0 {
        assert Keys(r)[i] == Keys(m)[i] && Keys(r)[j] == Keys(m)[j];
      }
    }
  }

  /** With unique keys, `Get` finds the one entry with that key. */
  lemma GetUnique<K, V>(m: OMap<K, V>, i: nat)
    requires UniqueKeys(m) && i < |m|
    ensures HasKey(m, m[i].0) && Get(m, m[i].0) == m[i].1
  {
    var k := IndexOf(m, m[i].0);
    assert k == i;
  }

  /** Reordering a map's entries keeps its keys unique. */
  lemma UniqueKeysPermutation<K, V>(a: OMap<K, V>, b: OMap<K, V>)
    requires UniqueKeys(a) && multiset(a) == multiset(b)
    ensures UniqueKeys(b)
  {
    forall i, j | 0 <= i < j < |b| ensures b[i].0 != b[j].0 {
      if b[i].0 == b[j].0 {
        assert b[i] in multiset(a) && b[j] in multiset(a);
        var p :| 0 <= p < |a| && a[p] == b[i];
        var q :| 0 <= q < |a| && a[q] == b[j];
        CountUnique(a, p);
        CountRepeated(b, i, j);
      }
    }
  }

  /** With unique keys every entry occurs once. */
  lemma CountUnique<K, V>(a: OMap<K, V>, p: nat)
    requires UniqueKeys(a) && p < |a|
    ensures multiset(a)[a[p]] == 1
  {
    var x := a[p];
    assert a == a[..p] + [x] + a[p + 1..];
    assert x !in a[..p] && x !in a[p + 1..] by {
      forall r | 0 <= r < |a| && r != p ensures a[r] != x {
      }
    }
    assert multiset(a) == multiset(a[..p]) + multiset{x} + multiset(a[p + 1..]);
  }

  /** `d.get(k, default)`. */
  function GetOr<K(==), V>(m: OMap<K, V>, k: K, default: V): (v: V)
    ensures HasKey(m, k) ==> v == Get(m, k)
    ensures !HasKey(m, k) ==> v == default
  {
    if HasKey(m, k) then Get(m, k) else default
  }

  /** The values in order. */
  function Values<K, V>(m: OMap<K, V>): (vs: seq<V>)
    ensures |vs| == |m|
    ensures forall i :: 0 <= i < |m| ==> vs[i] == m[i].1
  {
    seq(|m|, i requires 0 <= i < |m| => m[i].1)
  }

  /** A key is present exactly when it is among the keys. */
  lemma HasKeyIffInKeys<K, V>(m: OMap<K, V>, k: K)
    ensures HasKey(m, k) <==> k in Keys(m)
  {
    if k in Keys(m) {
      var i :| 0 <= i < |m| && Keys(m)[i] == k;
    }
  }

  /** Assigning a key adds it to the keys and removes none. */
  lemma PutKeys<K, V>(m: OMap<K, V>, k: K, v: V)
    ensures forall x :: x in Keys(Put(m, k, v)) <==> x in Keys(m) || x == k
  {
    HasKeyIffInKeys(m, k);
    if !HasKey(m, k) {
      assert Keys(Put(m, k, v)) == Keys(m) + [k];
    }
  }

  /** The union of `f` over the values. */
  function UnionOf<K, V, E>(m: OMap<K, V>, f: V -> set<E>): set<E>
    decreases |m|
  {
    if |m| == 0 then {} else f(m[0].1) + UnionOf(m[1..], f)
  }

  lemma {:induction false} UnionOfConcat<K, V, E>(a: OMap<K, V>, b: OMap<K, V>, f: V -> set<E>)
    ensures UnionOf(a + b, f) == UnionOf(a, f) + UnionOf(b, f)
    decreases |a|
  {
    if |a| == 0 {
      assert a + b == b;
    } else {
      assert (a + b)[0] == a[0];
      assert (a + b)[1..] == a[1..] + b;
      UnionOfConcat(a[1..], b, f);
    }
  }

  lemma {:induction false} UnionOfMember<K, V, E>(m: OMap<K, V>, f: V -> set<E>, x: E)
    ensures x in UnionOf(m, f) <==> exists e :: e in m && x in f(e.1)
    decreases |m|
  {
    if |m| > 0 {
      UnionOfMember(m[1..], f, x);
      assert m == [m[0]] + m[1..];
    }
  }

  /** A stored value's share is part of the union. */
  lemma GetInUnion<K, V, E>(m: OMap<K, V>, k: K, f: V -> set<E>)
    requires HasKey(m, k)
    ensures f(Get(m, k)) <= UnionOf(m, f)
  {
    var e := m[IndexOf(m, k)];
    forall x | x in f(Get(m, k)) ensures x in UnionOf(m, f) {
      UnionOfMember(m, f, x);
      assert e in m && x in f(e.1);
    }
  }

  /** Entries with the same elements, in whatever order or multiplicity,
      have the same union. */
  lemma UnionOfSameEntries<K, V, E>(a: OMap<K, V>, b: OMap<K, V>, f: V -> set<E>)
    requires forall e :: e in a <==> e in b
    ensures UnionOf(a, f) == UnionOf(b, f)
  {
    UnionOfCovered(a, b, f);
    UnionOfCovered(b, a, f);
  }

  lemma UnionOfCovered<K, V, E>(a: OMap<K, V>, b: OMap<K, V>, f: V -> set<E>)
    requires forall e :: e in a ==> e in b
    ensures UnionOf(a, f) <= UnionOf(b, f)
  {
    forall x | x in UnionOf(a, f) ensures x in UnionOf(b, f) {
      UnionOfMember(a, f, x);
      UnionOfMember(b, f, x);
      var e :| e in a && x in f(e.1);
      assert e in b;
    }
  }

  lemma UnionOfSplit<K, V, E>(pre: OMap<K, V>, e: (K, V), post: OMap<K, V>, f: V -> set<E>)
    ensures UnionOf(pre + [e] + post, f) == UnionOf(pre, f) + f(e.1) + UnionOf(post, f)
  {
    UnionOfConcat(pre + [e], post, f);
    UnionOfConcat(pre, [e], f);
    assert UnionOf([e], f) == f(e.1) by {
      assert [e][1..] == [];
    }
  }

  /** A sequence around position `i`, before and after replacing it. */
  lemma UpdateSplits<T>(s: seq<T>, i: nat, x: T)
    requires i < |s|
    ensures s == s[..i] + [s[i]] + s[i + 1..]
    ensures s[i := x] == s[..i] + [x] + s[i + 1..]
  {
  }

  /** Assigning a value that covers the one it replaces adds its union. */
  lemma UnionOfPut<K, V, E>(m: OMap<K, V>, k: K, v: V, f: V -> set<E>)
    requires HasKey(m, k) ==> f(Get(m, k)) <= f(v)
    ensures UnionOf(Put(m, k, v), f) == UnionOf(m, f) + f(v)
  {
    if HasKey(m, k) {
      var i := IndexOf(m, k);
      UpdateSplits(m, i, (k, v));
      UnionOfSplit(m[..i], m[i], m[i + 1..], f);
      UnionOfSplit(m[..i], (k, v), m[i + 1..], f);
    } else {
      UnionOfSplit(m, (k, v), [], f);
      assert m + [(k, v)] + [] == m + [(k, v)];
    }
  }

  /** Every entry after a `Put` is the new one or was there before. */
  lemma PutEntries<K, V>(m: OMap<K, V>, k: K, v: V)
    ensures forall j :: 0 <= j < |Put(m, k, v)| ==> Put(m, k, v)[j] == (k, v) || Put(m, k, v)[j] in m
  {
    var r := Put(m, k, v);
    forall j | 0 <= j < |r| ensures r[j] == (k, v) || r[j] in m {
      if !HasKey(m, k) && j == |m| {
        assert r[j] == (k, v);
      } else if j < |m| && m[j].0 != k {
        assert r[j] == m[j];
      }
    }
  }

  /** Whatever value it replaces, a `Put` adds at most the new value's share. */
  lemma UnionOfPutWithin<K, V, E>(m: OMap<K, V>, k: K, v: V, f: V -> set<E>)
    ensures UnionOf(Put(m, k, v), f) <= UnionOf(m, f) + f(v)
  {
    var r := Put(m, k, v);
    PutEntries(m, k, v);
    forall x | x in UnionOf(r, f) ensures x in UnionOf(m, f) + f(v) {
      UnionOfMember(r, f, x);
      UnionOfMember(m, f, x);
      var e :| e in r && x in f(e.1);
      var j :| 0 <= j < |r| && r[j] == e;
    }
  }

  /** The entries whose value satisfies `p` (`keep`) or fails it (`!keep`),
      in order. */
  function Where<K, V>(m: OMap<K, V>, p: V -> bool, keep: bool): (r: OMap<K, V>)
    ensures forall j :: 0 <= j < |r| ==> r[j] in m && p(r[j].1) == keep
    ensures forall i :: 0 <= i < |m| && p(m[i].1) == keep ==> m[i] in r
    ensures |r| <= |m|
    decreases |m|
  {
    if |m| == 0 then []
    else
      assert m == [m[0]] + m[1..];
      (if p(m[0].1) == keep then [m[0]] else []) + Where(m[1..], p, keep)
  }

  /** Splitting on a predicate loses nothing. */
  lemma {:induction false} WherePartition<K, V, E>(m: OMap<K, V>, p: V -> bool, f: V -> set<E>)
    ensures UnionOf(Where(m, p, true), f) + UnionOf(Where(m, p, false), f) == UnionOf(m, f)
    decreases |m|
  {
    if |m| > 0 {
      WherePartition(m[1..], p, f);
      var t := Where(m[1..], p, true);
      var u := Where(m[1..], p, false);
      if p(m[0].1) {
        assert Where(m, p, true) == [m[0]] + t;
        assert Where(m, p, false) == u;
        UnionOfConcat([m[0]], t, f);
      } else {
        assert Where(m, p, true) == t;
        assert Where(m, p, false) == [m[0]] + u;
        UnionOfConcat([m[0]], u, f);
      }
    }
  }

  /** The entries whose key is not `k`, in order. */
  function WithoutKey<K(==), V>(m: OMap<K, V>, k: K): (r: OMap<K, V>)
    ensures forall j :: 0 <= j < |r| ==> r[j] in m && r[j].0 != k
    ensures forall j :: 0 <= j < |m| && m[j].0 != k ==> m[j] in r
    decreases |m|
  {
    if |m| == 0 then []
    else
      assert m == [m[0]] + m[1..];
      (if m[0].0 == k then [] else [m[0]]) + WithoutKey(m[1..], k)
  }

  lemma UniqueTail<K, V>(m: OMap<K, V>)
    requires UniqueKeys(m) && |m| > 0
    ensures UniqueKeys(m[1..])
    ensures !HasKey(m[1..], m[0].0)
  {
    var rest := m[1..];
    forall i, j | 0 <= i < j < |rest| ensures rest[i].0 != rest[j].0 {
      assert rest[i] == m[i + 1] && rest[j] == m[j + 1];
    }
  }

  /** Looking a key up past a different first key. */
  lemma GetTail<K, V>(m: OMap<K, V>, k: K)
    requires |m| > 0 && m[0].0 != k
    ensures HasKey(m, k) <==> HasKey(m[1..], k)
    ensures HasKey(m, k) ==> Get(m, k) == Get(m[1..], k)
  {
    if HasKey(m, k) {
      var i := IndexOf(m, k);
      assert m[1..][i - 1].0 == k;
      var h := IndexOf(m[1..], k);
      assert m[h + 1].0 == k;
    }
    if HasKey(m[1..], k) {
      var j :| 0 <= j < |m[1..]| && m[1..][j].0 == k;
      assert m[j + 1].0 == k;
    }
  }

  /** With unique keys, removing a key removes exactly its value's share. */
  lemma {:induction false} WithoutKeyBag<K, V, E>(m: OMap<K, V>, k: K, f: V -> multiset<E>)
    requires UniqueKeys(m)
    ensures HasKey(m, k) ==> BagOf(WithoutKey(m, k), f) + f(Get(m, k)) == BagOf(m, f)
    ensures !HasKey(m, k) ==> BagOf(WithoutKey(m, k), f) == BagOf(m, f)
    decreases |m|
  {
    if |m| > 0 {
      var rest := m[1..];
      UniqueTail(m);
      WithoutKeyBag(rest, k, f);
      if m[0].0 == k {
        assert WithoutKey(m, k) == WithoutKey(rest, k);
        assert Get(m, k) == m[0].1;
      } else {
        GetTail(m, k);
        assert WithoutKey(m, k) == [m[0]] + WithoutKey(rest, k);
        BagOfConcat([m[0]], WithoutKey(rest, k), f);
      }
    }
  }

  /** Removing a key keeps the remaining keys unique. */
  lemma {:induction false} WithoutKeyUnique<K, V>(m: OMap<K, V>, k: K)
    requires UniqueKeys(m)
    ensures UniqueKeys(WithoutKey(m, k))
    ensures !HasKey(WithoutKey(m, k), k)
    decreases |m|
  {
    if |m| > 0 {
      var rest := m[1..];
      UniqueTail(m);
      WithoutKeyUnique(rest, k);
      var w := WithoutKey(rest, k);
      if m[0].0 != k {
        UniqueConsFresh(m[0], rest, w);
        assert WithoutKey(m, k) == [m[0]] + w;
      }
    }
  }

  /** An entry whose key the tail lacks, before entries drawn from that
      tail, keeps the keys distinct. */
  lemma UniqueConsFresh<K, V>(e: (K, V), rest: OMap<K, V>, w: OMap<K, V>)
    requires UniqueKeys(w) && !HasKey(rest, e.0)
    requires forall j :: 0 <= j < |w| ==> w[j] in rest
    ensures UniqueKeys([e] + w)
  {
    forall j | 0 <= j < |w| ensures w[j].0 != e.0 {
      var h :| 0 <= h < |rest| && rest[h] == w[j];
    }
    var r := [e] + w;
    forall i, j | 0 <= i < j < |r| ensures r[i].0 != r[j].0 {
      assert r[j] == w[j - 1];
      if i > 0 {
        assert r[i] == w[i - 1];
      }
    }
  }

  // ---------------------------------------------------------------------
  // Sums of counts and of multisets over the values

  /** `sum(d.values())`. */
  function Total<K>(m: OMap<K, nat>): nat
    decreases |m|
  {
    if |m| == 0 then 0 else m[0].1 + Total(m[1..])
  }

  lemma {:induction false} TotalConcat<K>(a: OMap<K, nat>, b: OMap<K, nat>)
    ensures Total(a + b) == Total(a) + Total(b)
    decreases |a|
  {
    if |a| == 0 {
      assert a + b == b;
    } else {
      assert (a + b)[0] == a[0];
      assert (a + b)[1..] == a[1..] + b;
      TotalConcat(a[1..], b);
    }
  }

  /** Counting one more occurrence of a key adds one to the total. */
  lemma TotalIncrement<K>(m: OMap<K, nat>, k: K)
    ensures Total(Put(m, k, GetOr(m, k, 0) + 1)) == Total(m) + 1
  {
    TotalPut(m, k, GetOr(m, k, 0) + 1);
  }

  /** Assigning a count changes the total by the difference. */
  lemma TotalPut<K>(m: OMap<K, nat>, k: K, v: nat)
    ensures HasKey(m, k) ==> Total(Put(m, k, v)) + Get(m, k) == Total(m) + v
    ensures !HasKey(m, k) ==> Total(Put(m, k, v)) == Total(m) + v
  {
    if HasKey(m, k) {
      var i := IndexOf(m, k);
      assert m == m[..i] + [m[i]] + m[i + 1..];
      assert Put(m, k, v) == m[..i] + [(k, v)] + m[i + 1..];
      TotalConcat(m[..i] + [m[i]], m[i + 1..]);
      TotalConcat(m[..i], [m[i]]);
      TotalConcat(m[..i] + [(k, v)], m[i + 1..]);
      TotalConcat(m[..i], [(k, v)]);
      assert Total([m[i]]) == m[i].1 && Total([(k, v)]) == v;
    } else {
      TotalConcat(m, [(k, v)]);
      assert Total([(k, v)]) == v;
    }
  }

  /** The multiset union of `f` over the values. */
  function BagOf<K, V, E>(m: OMap<K, V>, f: V -> multiset<E>): multiset<E>
    decreases |m|
  {
    if |m| == 0 then multiset{} else f(m[0].1) + BagOf(m[1..], f)
  }

  lemma {:induction false} BagOfConcat<K, V, E>(a: OMap<K, V>, b: OMap<K, V>, f: V -> multiset<E>)
    ensures BagOf(a + b, f) == BagOf(a, f) + BagOf(b, f)
    decreases |a|
  {
    if |a| == 0 {
      assert a + b == b;
    } else {
      assert (a + b)[0] == a[0];
      assert (a + b)[1..] == a[1..] + b;
      BagOfConcat(a[1..], b, f);
    }
  }

  lemma BagOfSplit<K, V, E>(pre: OMap<K, V>, e: (K, V), post: OMap<K, V>, f: V -> multiset<E>)
    ensures BagOf(pre + [e] + post, f) == BagOf(pre, f) + f(e.1) + BagOf(post, f)
  {
    BagOfConcat(pre + [e], post, f);
    BagOfConcat(pre, [e], f);
    assert BagOf([e], f) == f(e.1) by {
      assert [e][1..] == [];
    }
  }

  /** Assigning a value swaps its share for the replaced one's. */
  lemma BagOfPut<K, V, E>(m: OMap<K, V>, k: K, v: V, f: V -> multiset<E>)
    ensures HasKey(m, k) ==> BagOf(Put(m, k, v), f) + f(Get(m, k)) == BagOf(m, f) + f(v)
    ensures !HasKey(m, k) ==> BagOf(Put(m, k, v), f) == BagOf(m, f) + f(v)
  {
    if HasKey(m, k) {
      var i := IndexOf(m, k);
      assert m == m[..i] + [m[i]] + m[i + 1..];
      assert Put(m, k, v) == m[..i] + [(k, v)] + m[i + 1..];
      BagOfSplit(m[..i], m[i], m[i + 1..], f);
      BagOfSplit(m[..i], (k, v), m[i + 1..], f);
    } else {
      BagOfSplit(m, (k, v), [], f);
      assert m + [(k, v)] + [] == m + [(k, v)];
    }
  }

  /** Reordering the entries does not change the multiset union. */
  lemma {:induction false} BagOfPermutation<K, V, E>(a: OMap<K, V>, b: OMap<K, V>, f: V -> multiset<E>)
    requires multiset(a) == multiset(b)
    ensures BagOf(a, f) == BagOf(b, f)
    decreases |a|
  {
    if |a| == 0 {
      assert |b| == |multiset(b)| == 0;
    } else {
      assert a[0] in multiset(b);
      var i :| 0 <= i < |b| && b[i] == a[0];
      var rest := b[..i] + b[i + 1..];
      BagOfRemoveAt(b, i, rest, f);
      assert a == [a[0]] + a[1..];
      BagOfPermutation(a[1..], rest, f);
    }
  }

  /** Taking one entry out of a map takes its share out of the union. */
  lemma BagOfRemoveAt<K, V, E>(b: OMap<K, V>, i: nat, rest: OMap<K, V>, f: V -> multiset<E>)
    requires i < |b| && rest == b[..i] + b[i + 1..]
    ensures multiset(rest) == multiset(b) - multiset{b[i]}
    ensures BagOf(b, f) == f(b[i].1) + BagOf(rest, f)
  {
    assert b == b[..i] + [b[i]] + b[i + 1..];
    BagOfSplit(b[..i], b[i], b[i + 1..], f);
    BagOfConcat(b[..i], b[i + 1..], f);
  }

  /** Splitting on a predicate loses nothing and duplicates nothing. */
  lemma {:induction false} WhereBagPartition<K, V, E>(m: OMap<K, V>, p: V -> bool, f: V -> multiset<E>)
    ensures BagOf(Where(m, p, true), f) + BagOf(Where(m, p, false), f) == BagOf(m, f)
    decreases |m|
  {
    if |m| > 0 {
      WhereBagPartition(m[1..], p, f);
      var t := Where(m[1..], p, true);
      var u := Where(m[1..], p, false);
      if p(m[0].1) {
        assert Where(m, p, true) == [m[0]] + t;
        assert Where(m, p, false) == u;
        BagOfConcat([m[0]], t, f);
      } else {
        assert Where(m, p, true) == t;
        assert Where(m, p, false) == [m[0]] + u;
        BagOfConcat([m[0]], u, f);
      }
    }
  }
}
