/** Date series of the read side: rows filtered and mapped in order, then
    collected into a `Map` keyed by date, where a repeated key keeps the
    position of its first row and takes the value of its last. */
module Series {
  import opened Common
  import opened Sorting
  import opened Dedup
  import opened Folds

  /** `xs.map(f).filter(Boolean)`: the mapped values that are present, in order. */
  function Collect<T, U>(xs: seq<T>, f: T -> Option<U>): (r: seq<U>)
    ensures |r| <= |xs|
    decreases |xs|
  {
    if xs == [] then []
    else
      var last := f(xs[|xs| - 1]);
      Collect(xs[..|xs| - 1], f) + (if last.Some? then [last.value] else [])
  }

  lemma CollectSnoc<T, U>(xs: seq<T>, i: int, f: T -> Option<U>)
    requires 0 <= i < |xs|
    ensures Collect(xs[..i + 1], f) == Collect(xs[..i], f) + (if f(xs[i]).Some? then [f(xs[i]).value] else [])
  {
    assert xs[..i + 1][..i] == xs[..i];
  }

  /** A value is collected exactly when some row maps to it. */
  lemma {:induction false} CollectHas<T, U>(xs: seq<T>, f: T -> Option<U>, u: U)
    ensures u in Collect(xs, f) <==> exists i :: 0 <= i < |xs| && f(xs[i]) == Some(u)
    decreases |xs|
  {
    if xs != [] {
      var init := xs[..|xs| - 1];
      CollectHas(init, f, u);
      assert forall i :: 0 <= i < |init| ==> init[i] == xs[i];
      if exists i :: 0 <= i < |xs| && f(xs[i]) == Some(u) {
        var i :| 0 <= i < |xs| && f(xs[i]) == Some(u);
        if i < |init| {
          assert u in Collect(init, f);
        }
      }
    }
  }

  /** Collecting distributes over concatenation. */
  lemma {:induction false} CollectConcat<T, U>(xs: seq<T>, ys: seq<T>, f: T -> Option<U>)
    ensures Collect(xs + ys, f) == Collect(xs, f) + Collect(ys, f)
    decreases |ys|
  {
    if ys != [] {
      var ys' := ys[..|ys| - 1];
      var y := ys[|ys| - 1];
      assert (xs + ys)[..|xs + ys| - 1] == xs + ys';
      assert (xs + ys)[|xs + ys| - 1] == y;
      CollectConcat(xs, ys', f);
      var last := if f(y).Some? then [f(y).value] else [];
      assert Collect(ys, f) == Collect(ys', f) + last;
      assert Collect(xs + ys, f) == Collect(xs + ys', f) + last;
      assert Collect(xs, f) + Collect(ys', f) + last == Collect(xs, f) + (Collect(ys', f) + last);
    } else {
      assert xs + ys == xs;
    }
  }

  /** Rows sorted by a key stay sorted when every collected value keeps its
      row's key. */
  lemma {:induction false} CollectSorted<T, U>(xs: seq<T>, f: T -> Option<U>, key: T -> string, key': U -> string)
    requires SortedBy(xs, (a: T, b: T) => StrLe(key(a), key(b)))
    requires forall i :: 0 <= i < |xs| && f(xs[i]).Some? ==> key'(f(xs[i]).value) == key(xs[i])
    ensures SortedBy(Collect(xs, f), (a: U, b: U) => StrLe(key'(a), key'(b)))
    decreases |xs|
  {
    if xs != [] {
      var init := xs[..|xs| - 1];
      var x := xs[|xs| - 1];
      assert forall i :: 0 <= i < |init| ==> init[i] == xs[i];
      CollectSorted(init, f, key, key');
      if f(x).Some? {
        var c := Collect(init, f);
        forall i | 0 <= i < |c| ensures StrLe(key'(c[i]), key'(f(x).value)) {
          CollectHas(init, f, c[i]);
          assert c[i] in c;
          var k :| 0 <= k < |init| && f(init[k]) == Some(c[i]);
          assert init[k] == xs[k];
        }
      }
    }
  }

  // ---------------------------------------------------------------------
  // The `Map` filled in order

  function Keys<K, V>(es: seq<(K, V)>): (ks: seq<K>)
    ensures |ks| == |es| && forall i :: 0 <= i < |es| ==> ks[i] == es[i].0
  {
    seq(|es|, i requires 0 <= i < |es| => es[i].0)
  }

  function AsEntry<K, V>(e: (K, V)): Option<(K, V)> { Some(e) }

  /** The `Map` after one `set` per entry, in order. */
  function LastMap<K(==), V>(es: seq<(K, V)>): map<K, V>
  {
    Fold(map[], es, Upsert(AsEntry))
  }

  /** `es[i]` is the last entry with its key. */
  predicate IsLastOfKey<K(==), V>(es: seq<(K, V)>, i: int) {
    0 <= i < |es| && forall j :: i < j < |es| ==> es[j].0 != es[i].0
  }

  /** The map holds a key exactly when some entry has it, with the value of
      the last such entry. */
  lemma LastMapProps<K, V>(es: seq<(K, V)>, k: K)
    ensures k in LastMap(es) <==> k in Keys(es)
    ensures k in LastMap(es) ==> exists i :: IsLastOfKey(es, i) && es[i] == (k, LastMap(es)[k])
  {
    UpsertLastWins(es, AsEntry, k);
    if k in Keys(es) {
      var i :| 0 <= i < |es| && Keys(es)[i] == k;
      assert YieldsKey(AsEntry, es[i], k);
    }
  }

  /** `Array.from(map.values())`: one value per key, in the order the keys
      were first set, each the last value set. */
  function Latest<K(==), V>(es: seq<(K, V)>): (vs: seq<V>)
    ensures |vs| == |Distinct(Keys(es))|
  {
    var ks := Distinct(Keys(es));
    var m := LastMap(es);
    assert forall k :: k in ks ==> k in m by {
      forall k | k in ks ensures k in m {
        DistinctHas(Keys(es), k);
        LastMapProps(es, k);
      }
    }
    seq(|ks|, j requires 0 <= j < |ks| => m[ks[j]])
  }

  /** Key `ks[j]` of the map holds the value of the last entry with that
      key. */
  lemma LatestAt<K, V>(es: seq<(K, V)>, j: int)
    requires 0 <= j < |Latest(es)|
    ensures exists i :: IsLastOfKey(es, i) && es[i] == (Distinct(Keys(es))[j], Latest(es)[j])
  {
    var ks := Distinct(Keys(es));
    DistinctHas(Keys(es), ks[j]);
    LastMapProps(es, ks[j]);
    assert Latest(es)[j] == LastMap(es)[ks[j]];
  }

  /** One key per distinct key of the entries, each once. */
  lemma LatestProps<K, V>(es: seq<(K, V)>)
    ensures NoDuplicates(Distinct(Keys(es)))
    ensures forall k :: k in Distinct(Keys(es)) <==> exists i :: 0 <= i < |es| && es[i].0 == k
  {
    DistinctProps(Keys(es));
    forall k ensures k in Distinct(Keys(es)) <==> exists i :: 0 <= i < |es| && es[i].0 == k {
      DistinctHas(Keys(es), k);
      if k in Keys(es) {
        var i :| 0 <= i < |es| && Keys(es)[i] == k;
      }
    }
  }

  /** Row `i` is the last row that yields key `k`, and yields it with `v`. */
  ghost predicate IsLastYieldAt<T, K, V>(xs: seq<T>, f: T -> Option<(K, V)>, i: int, k: K, v: V) {
    0 <= i < |xs| && f(xs[i]) == Some((k, v)) && forall j :: i < j < |xs| ==> !YieldsKey(f, xs[j], k)
  }

  /** The last collected entry with its key comes from the last row that
      yields that key. */
  lemma {:induction false} CollectLastOfKey<T, K, V>(xs: seq<T>, f: T -> Option<(K, V)>, m: int)
    requires IsLastOfKey(Collect(xs, f), m)
    ensures exists i :: IsLastYieldAt(xs, f, i, Collect(xs, f)[m].0, Collect(xs, f)[m].1)
    decreases |xs|
  {
    var init := xs[..|xs| - 1];
    var x := xs[|xs| - 1];
    var es0 := Collect(init, f);
    var es := Collect(xs, f);
    assert forall i :: 0 <= i < |init| ==> init[i] == xs[i];
    if f(x).Some? && m == |es0| {
      assert IsLastYieldAt(xs, f, |xs| - 1, es[m].0, es[m].1);
    } else {
      assert forall i :: 0 <= i < |es0| ==> es[i] == es0[i];
      if f(x).Some? {
        assert es[|es0|] == f(x).value;
      }
      assert IsLastOfKey(es0, m);
      CollectLastOfKey(init, f, m);
      var i :| IsLastYieldAt(init, f, i, es0[m].0, es0[m].1);
      assert IsLastYieldAt(xs, f, i, es[m].0, es[m].1);
    }
  }

  /** Some collected entry has key `k` exactly when some row yields it. */
  lemma {:induction false} CollectKeyHas<T, K, V>(xs: seq<T>, f: T -> Option<(K, V)>, k: K)
    ensures k in Keys(Collect(xs, f)) <==> exists i :: 0 <= i < |xs| && YieldsKey(f, xs[i], k)
    decreases |xs|
  {
    if xs != [] {
      var init := xs[..|xs| - 1];
      var x := xs[|xs| - 1];
      CollectKeyHas(init, f, k);
      assert forall i :: 0 <= i < |init| ==> init[i] == xs[i];
      var es0 := Collect(init, f);
      var es := Collect(xs, f);
      assert forall i :: 0 <= i < |es0| ==> es[i] == es0[i];
      if f(x).Some? {
        assert es[|es0|] == f(x).value;
      }
      if exists i :: 0 <= i < |xs| && YieldsKey(f, xs[i], k) {
        var i :| 0 <= i < |xs| && YieldsKey(f, xs[i], k);
        if i < |init| {
          var m :| 0 <= m < |es0| && es0[m].0 == k;
          assert es[m].0 == k;
        } else {
          assert es[|es0|].0 == k;
        }
      }
      if k in Keys(es) {
        var m :| 0 <= m < |es| && es[m].0 == k;
        if m < |es0| {
          assert es0[m].0 == k;
        }
      }
    }
  }

  /** What the filled Map holds, read back against the rows: key `j` is
      yielded by some row, and its value is that of the last row yielding
      it. */
  lemma LatestYield<T, K, V>(xs: seq<T>, f: T -> Option<(K, V)>, j: int)
    requires 0 <= j < |Latest(Collect(xs, f))|
    ensures exists i :: IsLastYieldAt(xs, f, i, Distinct(Keys(Collect(xs, f)))[j], Latest(Collect(xs, f))[j])
  {
    var es := Collect(xs, f);
    LatestAt(es, j);
    var m :| IsLastOfKey(es, m) && es[m] == (Distinct(Keys(es))[j], Latest(es)[j]);
    CollectLastOfKey(xs, f, m);
  }

  /** One more `set`. */
  lemma LatestSnoc<K, V>(es: seq<(K, V)>, k: K, v: V)
    ensures Distinct(Keys(es + [(k, v)])) == Distinct(Keys(es)) + (if k in Keys(es) then [] else [k])
    ensures LastMap(es + [(k, v)]) == LastMap(es)[k := v]
  {
    var es' := es + [(k, v)];
    assert Keys(es') == Keys(es) + [k];
    DistinctSnoc(Keys(es), k);
    assert es'[..|es'| - 1] == es && es'[|es'| - 1] == (k, v);
    var m := LastMap(es);
    assert LastMap(es') == Upsert(AsEntry)(m, (k, v));
    assert AsEntry((k, v)) == Some((k, v));
    assert Upsert(AsEntry)(m, (k, v)) == m[k := v];
  }

  /** The `labels`/`values` pair and its index map agree with the entries
      `es` set so far. */
  ghost predicate Filled<K(!new), V>(keys: seq<K>, vals: seq<V>, indexOf: map<K, nat>, es: seq<(K, V)>)
  {
    && keys == Distinct(Keys(es))
    && |vals| == |keys|
    && (forall k :: k in indexOf <==> k in keys)
    && (forall k :: k in indexOf ==> indexOf[k] < |keys| && keys[indexOf[k]] == k)
    && (forall j :: 0 <= j < |keys| ==> keys[j] in LastMap(es) && vals[j] == LastMap(es)[keys[j]])
  }

  /** One `map.set(key, value)`: overwrite the value in place when the key
      is known, append it otherwise. */
  method SetEntry<K(==,!new), V>(keys: seq<K>, vals: seq<V>, indexOf: map<K, nat>, ghost es: seq<(K, V)>, k: K, v: V)
    returns (keys': seq<K>, vals': seq<V>, indexOf': map<K, nat>)
    requires Filled(keys, vals, indexOf, es)
    ensures Filled(keys', vals', indexOf', es + [(k, v)])
  {
    LatestSnoc(es, k, v);
    DistinctProps(Keys(es));
    DistinctHas(Keys(es), k);
    if k in indexOf {
      keys', vals', indexOf' := keys, vals[indexOf[k] := v], indexOf;
    } else {
      keys', vals', indexOf' := keys + [k], vals + [v], indexOf[k := |keys|];
    }
  }

  /** The loop `for (const row of rows) { …; map.set(key, value) }`, with
      the keys in first-set order and the values overwritten in place, as
      `labels`, `values` and `indexByDate` do in buildChartData and the
      `byDate` Map does in getFuelHistory and buildTrendPoints. Rows without
      an entry are skipped. */
  method LatestLoop<T, K(==,!new), V>(rows: seq<T>, entry: T -> Option<(K, V)>) returns (keys: seq<K>, vals: seq<V>)
    ensures keys == Distinct(Keys(Collect(rows, entry)))
    ensures vals == Latest(Collect(rows, entry))
  {
    keys := [];
    vals := [];
    var indexOf: map<K, nat> := map[];
    for i := 0 to |rows|
      invariant Filled(keys, vals, indexOf, Collect(rows[..i], entry))
    {
      CollectSnoc(rows, i, entry);
      var e := entry(rows[i]);
      if e.None? {
        assert Collect(rows[..i + 1], entry) == Collect(rows[..i], entry);
        continue;
      }
      var (k, v) := e.value;
      assert Collect(rows[..i + 1], entry) == Collect(rows[..i], entry) + [(k, v)];
      keys, vals, indexOf := SetEntry(keys, vals, indexOf, Collect(rows[..i], entry), k, v);
    }
    assert rows[..|rows|] == rows;
    assert |Latest(Collect(rows, entry))| == |vals|;
  }

  // ---------------------------------------------------------------------
  // Order

  lemma {:induction false} SubseqMembers<T>(a: seq<T>, b: seq<T>)
    requires SubseqOf(a, b)
    ensures forall x :: x in a ==> x in b
    decreases |b|
  {
    if a != [] {
      var b' := b[..|b| - 1];
      if a[|a| - 1] == b[|b| - 1] && SubseqOf(a[..|a| - 1], b') {
        SubseqMembers(a[..|a| - 1], b');
        assert a == a[..|a| - 1] + [a[|a| - 1]];
      } else {
        SubseqMembers(a, b');
      }
    }
  }

  /** Leaving elements out of a sorted list keeps it sorted. */
  lemma {:induction false} SubseqSorted<T>(a: seq<T>, b: seq<T>, le: (T, T) -> bool)
    requires SubseqOf(a, b) && SortedBy(b, le)
    ensures SortedBy(a, le)
    decreases |b|
  {
    if a != [] {
      var b' := b[..|b| - 1];
      assert SortedBy(b', le);
      if a[|a| - 1] == b[|b| - 1] && SubseqOf(a[..|a| - 1], b') {
        var a' := a[..|a| - 1];
        SubseqSorted(a', b', le);
        SubseqMembers(a', b');
        forall i | 0 <= i < |a'| ensures le(a[i], a[|a| - 1]) {
          assert a[i] == a'[i] && a'[i] in b';
          var k :| 0 <= k < |b'| && b'[k] == a'[i];
          assert b[k] == b'[k];
        }
      } else {
        SubseqSorted(a, b', le);
      }
    }
  }

  /** The first occurrences of a sorted list of strings ascend strictly. */
  lemma DistinctAscending(s: seq<string>)
    requires SortedBy(s, StrLe)
    ensures forall i, j :: 0 <= i < j < |Distinct(s)| ==> StrLt(Distinct(s)[i], Distinct(s)[j])
  {
    FirstByKeySubseq(s, Id);
    SubseqSorted(Distinct(s), s, StrLe);
    DistinctProps(s);
  }

  /** A list sorted by a string key: its keys ascend. */
  lemma KeysSorted<K, V>(es: seq<(string, V)>)
    requires SortedBy(es, (a: (string, V), b: (string, V)) => StrLe(a.0, b.0))
    ensures SortedBy(Keys(es), StrLe)
  {
  }

  lemma {:induction false} FilterNone<T>(s: seq<T>, p: T -> bool)
    requires forall j :: 0 <= j < |s| ==> !p(s[j])
    ensures Filter(s, p) == []
    decreases |s|
  {
    if s != [] {
      FilterNone(s[1..], p);
    }
  }

  /** The last element with a property is the last one the filter keeps. */
  lemma {:induction false} LastOfFilter<T>(s: seq<T>, p: T -> bool, i: int)
    requires 0 <= i < |s| && p(s[i]) && forall j :: i < j < |s| ==> !p(s[j])
    ensures Filter(s, p) != [] && Filter(s, p)[|Filter(s, p)| - 1] == s[i]
    decreases |s|
  {
    if i == 0 {
      FilterNone(s[1..], p);
    } else {
      LastOfFilter(s[1..], p, i - 1);
    }
  }

  /** Reordering keeps the keys pairwise distinct. */
  lemma DistinctKeysPermutation<T, K>(a: seq<T>, b: seq<T>, key: T -> K)
    requires multiset(a) == multiset(b) && DistinctKeys(a, key)
    ensures DistinctKeys(b, key)
  {
    assert NoDuplicates(a) by {
      forall i, j | 0 <= i < j < |a| ensures a[i] != a[j] {
        assert key(a[i]) != key(a[j]);
      }
    }
    forall i, j | 0 <= i < j < |b| ensures key(b[i]) != key(b[j]) {
      if b[i] == b[j] {
        RepeatCount(b, i, j);
        NoDuplicatesCount(a, b[i]);
      } else {
        assert b[i] in multiset(a) && b[j] in multiset(a);
      }
    }
  }

  /** Sorting a list that is already sorted leaves it as it is. */
  lemma {:induction false} SortOfSorted<T>(s: seq<T>, le: (T, T) -> bool)
    requires SortedBy(s, le)
    ensures Sort(s, le) == s
    decreases |s|
  {
    if s != [] {
      SortOfSorted(s[1..], le);
      assert s == [s[0]] + s[1..];
    }
  }
}
