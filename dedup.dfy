/** De-duplication by a key with a `seen` set that keeps the first element
    per key (`Array.from(new Set(xs))`, the discovery loops). The `Map`
    that the last element per key overwrites is Folds.Upsert. */
module Dedup {

  function KeySet<T, K(==)>(s: seq<T>, key: T -> K): (ks: set<K>)
    ensures forall i :: 0 <= i < |s| ==> key(s[i]) in ks
    ensures forall k :: k in ks ==> exists i :: 0 <= i < |s| && key(s[i]) == k
  {
    if s == [] then {} else KeySet(s[..|s| - 1], key) + {key(s[|s| - 1])}
  }

  predicate DistinctKeys<T, K(==)>(s: seq<T>, key: T -> K) {
    forall i, j :: 0 <= i < j < |s| ==> key(s[i]) != key(s[j])
  }

  /** The elements whose key has not been seen before, in order. */
  function FirstByKey<T, K(==)>(s: seq<T>, key: T -> K): (r: seq<T>)
    ensures |r| <= |s|
  {
    if s == [] then []
    else
      var init := s[..|s| - 1];
      FirstByKey(init, key) + (if key(s[|s| - 1]) in KeySet(init, key) then [] else [s[|s| - 1]])
  }

  /** `a` is `b` with some elements left out, order kept. */
  predicate SubseqOf<T(==)>(a: seq<T>, b: seq<T>)
    decreases |b|
  {
    a == [] || (b != [] && ((a[|a| - 1] == b[|b| - 1] && SubseqOf(a[..|a| - 1], b[..|b| - 1])) || SubseqOf(a, b[..|b| - 1])))
  }

  /** The index of the first element of `s` with key `k`, for a key of `s`. */
  predicate IsFirstWithKey<T, K(==)>(s: seq<T>, key: T -> K, i: int) {
    0 <= i < |s| && forall j :: 0 <= j < i ==> key(s[j]) != key(s[i])
  }

  lemma {:induction false} FirstByKeyKeys<T, K>(s: seq<T>, key: T -> K)
    ensures KeySet(FirstByKey(s, key), key) == KeySet(s, key)
  {
    if s != [] {
      var init := s[..|s| - 1];
      var x := s[|s| - 1];
      FirstByKeyKeys(init, key);
      var d := FirstByKey(init, key);
      var r := FirstByKey(s, key);
      if key(x) !in KeySet(init, key) {
        assert r[..|r| - 1] == d;
      } else {
        assert r == d;
      }
    }
  }

  lemma {:induction false} FirstByKeyDistinct<T, K>(s: seq<T>, key: T -> K)
    ensures DistinctKeys(FirstByKey(s, key), key)
  {
    if s != [] {
      var init := s[..|s| - 1];
      var x := s[|s| - 1];
      FirstByKeyDistinct(init, key);
      FirstByKeyKeys(init, key);
      var d := FirstByKey(init, key);
      var r := FirstByKey(s, key);
      if key(x) !in KeySet(init, key) {
        assert r == d + [x];
        forall i, j | 0 <= i < j < |r| ensures key(r[i]) != key(r[j]) {
          if j == |d| {
            assert key(r[i]) in KeySet(d, key);
          } else {
            assert r[i] == d[i] && r[j] == d[j];
          }
        }
      } else {
        assert r == d;
      }
    }
  }

  /** `y` is the first element of `s` with its key. */
  ghost predicate FirstOrigin<T, K>(s: seq<T>, key: T -> K, y: T) {
    exists i :: IsFirstWithKey(s, key, i) && s[i] == y
  }

  /** An element that is the first with its key in a prefix stays so once
      one more element is added. */
  lemma FirstOriginExtends<T, K>(s: seq<T>, key: T -> K, y: T)
    requires s != [] && FirstOrigin(s[..|s| - 1], key, y)
    ensures FirstOrigin(s, key, y)
  {
    var i :| IsFirstWithKey(s[..|s| - 1], key, i) && s[..|s| - 1][i] == y;
    assert IsFirstWithKey(s, key, i);
  }

  lemma {:induction false} FirstByKeyFirst<T, K>(s: seq<T>, key: T -> K)
    ensures forall j :: 0 <= j < |FirstByKey(s, key)| ==> FirstOrigin(s, key, FirstByKey(s, key)[j])
  {
    if s != [] {
      var init := s[..|s| - 1];
      var x := s[|s| - 1];
      FirstByKeyFirst(init, key);
      var d := FirstByKey(init, key);
      var r := FirstByKey(s, key);
      assert r[..|d|] == d;
      forall j | 0 <= j < |r| ensures FirstOrigin(s, key, r[j]) {
        if j < |d| {
          assert r[j] == d[j];
          FirstOriginExtends(s, key, d[j]);
        } else {
          assert key(x) !in KeySet(init, key);
          assert r == d + [x];
          assert r[j] == x;
          assert IsFirstWithKey(s, key, |s| - 1);
        }
      }
    } else {
      assert FirstByKey(s, key) == [];
    }
  }

  lemma FirstByKeyProps<T, K>(s: seq<T>, key: T -> K)
    ensures KeySet(FirstByKey(s, key), key) == KeySet(s, key)
    ensures DistinctKeys(FirstByKey(s, key), key)
    ensures forall j :: 0 <= j < |FirstByKey(s, key)| ==>
              exists i :: IsFirstWithKey(s, key, i) && s[i] == FirstByKey(s, key)[j]
  {
    FirstByKeyKeys(s, key);
    FirstByKeyDistinct(s, key);
    FirstByKeyFirst(s, key);
  }

  /** A property of every element holds of every element kept. */
  lemma FirstByKeyPreserves<T, K>(s: seq<T>, key: T -> K, p: T -> bool)
    requires forall i :: 0 <= i < |s| ==> p(s[i])
    ensures forall j :: 0 <= j < |FirstByKey(s, key)| ==> p(FirstByKey(s, key)[j])
  {
    FirstByKeyProps(s, key);
    forall j | 0 <= j < |FirstByKey(s, key)| ensures p(FirstByKey(s, key)[j]) {
      var i :| IsFirstWithKey(s, key, i) && s[i] == FirstByKey(s, key)[j];
    }
  }

  lemma {:induction false} FirstByKeySubseq<T, K>(s: seq<T>, key: T -> K)
    ensures SubseqOf(FirstByKey(s, key), s)
  {
    if s != [] {
      var init := s[..|s| - 1];
      FirstByKeySubseq(init, key);
      var r := FirstByKey(s, key);
      if key(s[|s| - 1]) !in KeySet(init, key) {
        assert r[..|r| - 1] == FirstByKey(init, key);
      } else {
        assert r == FirstByKey(init, key);
        SubseqExtend(r, init, s[|s| - 1]);
        assert init + [s[|s| - 1]] == s;
      }
    }
  }

  lemma SubseqExtend<T>(a: seq<T>, b: seq<T>, y: T)
    requires SubseqOf(a, b)
    ensures SubseqOf(a, b + [y])
  {
    var c := b + [y];
    assert c[..|c| - 1] == b;
  }

  /** The `seen`-set loop. */
  method DedupFirst<T, K(==)>(s: seq<T>, key: T -> K) returns (unique: seq<T>)
    ensures unique == FirstByKey(s, key)
  {
    var seen: set<K> := {};
    unique := [];
    for i := 0 to |s|
      invariant unique == FirstByKey(s[..i], key)
      invariant seen == KeySet(s[..i], key)
    {
      assert s[..i + 1][..i] == s[..i];
      if key(s[i]) in seen {
        continue;
      }
      seen := seen + {key(s[i])};
      unique := unique + [s[i]];
    }
    assert s[..|s|] == s;
  }

  function Id<T>(x: T): T { x }

  /** `Array.from(new Set(xs))`: first occurrences, in order. */
  function Distinct<T(==)>(s: seq<T>): (r: seq<T>)
  {
    FirstByKey(s, Id)
  }

  lemma DistinctProps<T>(s: seq<T>)
    ensures forall x :: x in Distinct(s) <==> x in s
    ensures forall i, j :: 0 <= i < j < |Distinct(s)| ==> Distinct(s)[i] != Distinct(s)[j]
  {
    FirstByKeyProps(s, Id);
    var r := Distinct(s);
    forall x ensures x in r <==> x in s {
      if x in s {
        var i :| 0 <= i < |s| && s[i] == x;
        assert Id(s[i]) in KeySet(r, Id);
      }
      if x in r {
        var j :| 0 <= j < |r| && r[j] == x;
        var i :| IsFirstWithKey(s, Id, i) && s[i] == r[j];
      }
    }
  }

  /** DistinctProps for one element. */
  lemma DistinctHas<T>(s: seq<T>, x: T)
    ensures x in Distinct(s) <==> x in s
  {
    DistinctProps(s);
  }

  /** Adding one element to a `Set` built in order. */
  lemma DistinctSnoc<T>(s: seq<T>, x: T)
    ensures Distinct(s + [x]) == Distinct(s) + (if x in s then [] else [x])
  {
    var t := s + [x];
    assert t[..|t| - 1] == s;
    if x in s {
      var i :| 0 <= i < |s| && s[i] == x;
      assert Id(s[i]) in KeySet(s, Id);
    } else {
      assert x !in KeySet(s, Id);
    }
  }

  /** `x` occurs in `s` before the first `y`. */
  ghost predicate OccursBefore<T>(s: seq<T>, x: T, y: T) {
    exists p :: 0 <= p < |s| && s[p] == x && y !in s[..p]
  }

  /** A `Set` lists its elements in the order they were first met. */
  lemma {:induction false} DistinctOrder<T>(s: seq<T>)
    ensures forall i, j :: 0 <= i < j < |Distinct(s)| ==> OccursBefore(s, Distinct(s)[i], Distinct(s)[j])
  {
    if s != [] {
      var init := s[..|s| - 1];
      var x := s[|s| - 1];
      assert init + [x] == s;
      DistinctOrder(init);
      DistinctSnoc(init, x);
      var d := Distinct(init);
      var r := Distinct(s);
      forall i, j | 0 <= i < j < |r| ensures OccursBefore(s, r[i], r[j]) {
        if j < |d| {
          var p :| 0 <= p < |init| && init[p] == d[i] && d[j] !in init[..p];
          assert s[..p] == init[..p];
        } else {
          DistinctHas(init, d[i]);
          var p :| 0 <= p < |init| && init[p] == d[i];
          assert s[..p] == init[..p];
        }
      }
    }
  }

  // ---------------------------------------------------------------------
  // Distinctness survives reordering

  predicate NoDuplicates<T(==)>(s: seq<T>) {
    forall i, j :: 0 <= i < j < |s| ==> s[i] != s[j]
  }

  lemma {:induction false} NoDuplicatesCount<T>(s: seq<T>, x: T)
    requires NoDuplicates(s)
    ensures multiset(s)[x] <= 1
  {
    if s != [] {
      assert s == [s[0]] + s[1..];
      assert NoDuplicates(s[1..]) by {
        forall i, j | 0 <= i < j < |s| - 1 ensures s[1..][i] != s[1..][j] {
          assert s[1..][i] == s[i + 1] && s[1..][j] == s[j + 1];
        }
      }
      NoDuplicatesCount(s[1..], x);
      if x == s[0] {
        assert x !in s[1..];
      }
    }
  }

  lemma RepeatCount<T>(s: seq<T>, i: int, j: int)
    requires 0 <= i < j < |s| && s[i] == s[j]
    ensures multiset(s)[s[i]] >= 2
  {
    assert s == s[..j] + [s[j]] + s[j + 1..];
    assert s[i] in s[..j];
  }

  /** A reordering of a list without duplicates has none either. */
  lemma NoDuplicatesPermutation<T>(a: seq<T>, b: seq<T>)
    requires multiset(a) == multiset(b) && NoDuplicates(a)
    ensures NoDuplicates(b)
  {
    forall i, j | 0 <= i < j < |b| ensures b[i] != b[j] {
      if b[i] == b[j] {
        RepeatCount(b, i, j);
        NoDuplicatesCount(a, b[i]);
      }
    }
  }
}
