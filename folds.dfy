/** Left folds: the shape of every `.each` loop that threads one
    accumulator (a price map, a list of candidates) through a list of page
    elements. */
module Folds {
  import opened Common

  /** `xs.forEach(x => acc = step(acc, x))` */
  function Fold<A, T>(acc: A, xs: seq<T>, step: (A, T) -> A): A
    decreases |xs|
  {
    if xs == [] then acc else step(Fold(acc, xs[..|xs| - 1], step), xs[|xs| - 1])
  }

  /** The loop itself. */
  method FoldLoop<A, T>(acc0: A, xs: seq<T>, step: (A, T) -> A) returns (acc: A)
    ensures acc == Fold(acc0, xs, step)
  {
    acc := acc0;
    for i := 0 to |xs|
      invariant acc == Fold(acc0, xs[..i], step)
    {
      assert xs[..i + 1][..i] == xs[..i];
      acc := step(acc, xs[i]);
    }
    assert xs[..|xs|] == xs;
  }

  /** One more element folds in one more step. */
  lemma FoldSnoc<A, T>(acc: A, xs: seq<T>, i: int, step: (A, T) -> A)
    requires 0 <= i < |xs|
    ensures Fold(acc, xs[..i + 1], step) == step(Fold(acc, xs[..i], step), xs[i])
  {
    assert xs[..i + 1][..i] == xs[..i];
  }

  /** A property every step keeps holds of the fold. */
  lemma {:induction false} FoldInvariant<A, T>(acc: A, xs: seq<T>, step: (A, T) -> A, inv: A -> bool)
    requires inv(acc)
    requires forall a, x :: inv(a) ==> inv(step(a, x))
    ensures inv(Fold(acc, xs, step))
    decreases |xs|
  {
    if xs != [] {
      FoldInvariant(acc, xs[..|xs| - 1], step, inv);
    }
  }

  /** Folding a concatenation folds the first part, then the second. */
  lemma {:induction false} FoldAppend<A, T>(acc: A, xs: seq<T>, ys: seq<T>, step: (A, T) -> A)
    ensures Fold(acc, xs + ys, step) == Fold(Fold(acc, xs, step), ys, step)
    decreases |ys|
  {
    if ys == [] {
      assert xs + ys == xs;
    } else {
      assert (xs + ys)[..|xs + ys| - 1] == xs + ys[..|ys| - 1];
      FoldAppend(acc, xs, ys[..|ys| - 1], step);
    }
  }

  /** `big` holds every entry of `small` unchanged. */
  ghost predicate Extends<K, V>(big: map<K, V>, small: map<K, V>) {
    forall k :: k in small ==> k in big && big[k] == small[k]
  }

  /** When no step overwrites or removes an entry, neither does the fold. */
  lemma {:induction false} FoldExtends<K, V, T>(acc: map<K, V>, xs: seq<T>, step: (map<K, V>, T) -> map<K, V>)
    requires forall a, x :: Extends(step(a, x), a)
    ensures Extends(Fold(acc, xs, step), acc)
    decreases |xs|
  {
    if xs != [] {
      FoldExtends(acc, xs[..|xs| - 1], step);
      var mid := Fold(acc, xs[..|xs| - 1], step);
      assert Extends(step(mid, xs[|xs| - 1]), mid);
    }
  }

  // ---------------------------------------------------------------------
  // Maps built row by row

  /** The step `if (!map[key]) map[key] = value`: the first row with a key wins. */
  function InsertNew<K(==), V, T>(entry: T -> Option<(K, V)>): (map<K, V>, T) -> map<K, V>
  {
    (m: map<K, V>, x: T) =>
      if entry(x).Some? && entry(x).value.0 !in m then m[entry(x).value.0 := entry(x).value.1] else m
  }

  /** The step `map[key] = value`: the last row with a key wins. */
  function Upsert<K(==), V, T>(entry: T -> Option<(K, V)>): (map<K, V>, T) -> map<K, V>
  {
    (m: map<K, V>, x: T) => if entry(x).Some? then m[entry(x).value.0 := entry(x).value.1] else m
  }

  /** `xs[i]` yields an entry with key `k`. */
  predicate YieldsKey<K(==), V, T>(entry: T -> Option<(K, V)>, x: T, k: K) {
    entry(x).Some? && entry(x).value.0 == k
  }

  /** A property of every row's entry and of the initial map holds of every
      entry of the map built with InsertNew, which never changes an entry
      once made. */
  lemma InsertNewKeeps<K, V, T>(acc: map<K, V>, xs: seq<T>, entry: T -> Option<(K, V)>, ok: (K, V) -> bool)
    requires forall k :: k in acc ==> ok(k, acc[k])
    requires forall x :: entry(x).Some? ==> ok(entry(x).value.0, entry(x).value.1)
    ensures forall k :: k in Fold(acc, xs, InsertNew(entry)) ==> ok(k, Fold(acc, xs, InsertNew(entry))[k])
    ensures Extends(Fold(acc, xs, InsertNew(entry)), acc)
  {
    var step := InsertNew(entry);
    var inv := (m: map<K, V>) => forall k :: k in m ==> ok(k, m[k]);
    forall a, x | inv(a) ensures inv(step(a, x)) {
    }
    forall a, x ensures Extends(step(a, x), a) {
    }
    FoldInvariant(acc, xs, step, inv);
    FoldExtends(acc, xs, step);
  }

  /** From an empty map, InsertNew keeps a key exactly when some row yields
      it, with the entry of the first such row. */
  lemma {:induction false} InsertNewFirstWins<K, V, T>(xs: seq<T>, entry: T -> Option<(K, V)>, k: K)
    ensures k in Fold(map[], xs, InsertNew(entry)) <==> exists i :: 0 <= i < |xs| && YieldsKey(entry, xs[i], k)
    ensures k in Fold(map[], xs, InsertNew(entry)) ==>
              exists i :: 0 <= i < |xs| && entry(xs[i]) == Some((k, Fold(map[], xs, InsertNew(entry))[k]))
                          && forall j :: 0 <= j < i ==> !YieldsKey(entry, xs[j], k)
    decreases |xs|
  {
    if xs != [] {
      var init := xs[..|xs| - 1];
      var last := xs[|xs| - 1];
      InsertNewFirstWins(init, entry, k);
      var before := Fold(map[], init, InsertNew(entry));
      var m := Fold(map[], xs, InsertNew(entry));
      assert m == InsertNew(entry)(before, last);
      assert forall i :: 0 <= i < |init| ==> init[i] == xs[i];
      if k in before {
        var i :| 0 <= i < |init| && entry(init[i]) == Some((k, before[k]))
                 && forall j :: 0 <= j < i ==> !YieldsKey(entry, init[j], k);
        assert m[k] == before[k];
        assert entry(xs[i]) == Some((k, m[k]));
      } else if YieldsKey(entry, last, k) {
        assert entry(xs[|xs| - 1]) == Some((k, m[k]));
        assert forall j :: 0 <= j < |xs| - 1 ==> !YieldsKey(entry, xs[j], k) by {
          forall j | 0 <= j < |xs| - 1 ensures !YieldsKey(entry, xs[j], k) {
            assert xs[j] == init[j];
          }
        }
      } else {
        assert k !in m;
        forall i | 0 <= i < |xs| ensures !YieldsKey(entry, xs[i], k) {
          if i < |init| { assert xs[i] == init[i]; }
        }
      }
    }
  }

  /** From an empty map, Upsert keeps a key exactly when some row yields
      it, with the entry of the last such row. */
  lemma {:induction false} UpsertLastWins<K, V, T>(xs: seq<T>, entry: T -> Option<(K, V)>, k: K)
    ensures k in Fold(map[], xs, Upsert(entry)) <==> exists i :: 0 <= i < |xs| && YieldsKey(entry, xs[i], k)
    ensures k in Fold(map[], xs, Upsert(entry)) ==>
              exists i :: 0 <= i < |xs| && entry(xs[i]) == Some((k, Fold(map[], xs, Upsert(entry))[k]))
                          && forall j :: i < j < |xs| ==> !YieldsKey(entry, xs[j], k)
    decreases |xs|
  {
    if xs != [] {
      var init := xs[..|xs| - 1];
      var last := xs[|xs| - 1];
      UpsertLastWins(init, entry, k);
      var before := Fold(map[], init, Upsert(entry));
      var m := Fold(map[], xs, Upsert(entry));
      assert m == Upsert(entry)(before, last);
      assert forall i :: 0 <= i < |init| ==> init[i] == xs[i];
      if YieldsKey(entry, last, k) {
        assert entry(xs[|xs| - 1]) == Some((k, m[k]));
      } else if k in before {
        var i :| 0 <= i < |init| && entry(init[i]) == Some((k, before[k]))
                 && forall j :: i < j < |init| ==> !YieldsKey(entry, init[j], k);
        assert m[k] == before[k];
        assert entry(xs[i]) == Some((k, m[k]));
        assert forall j :: i < j < |xs| ==> !YieldsKey(entry, xs[j], k) by {
          forall j | i < j < |xs| ensures !YieldsKey(entry, xs[j], k) {
            if j < |init| { assert xs[j] == init[j]; }
          }
        }
      } else {
        assert k !in m;
        forall i | 0 <= i < |xs| ensures !YieldsKey(entry, xs[i], k) {
          if i < |init| { assert xs[i] == init[i]; }
        }
      }
    }
  }

  /** A key no row yields keeps its presence and entry through Upsert. */
  lemma {:induction false} UpsertUntouched<K, V, T>(acc: map<K, V>, xs: seq<T>, entry: T -> Option<(K, V)>, k: K)
    requires forall i :: 0 <= i < |xs| ==> !YieldsKey(entry, xs[i], k)
    ensures k in Fold(acc, xs, Upsert(entry)) <==> k in acc
    ensures k in acc ==> Fold(acc, xs, Upsert(entry))[k] == acc[k]
    decreases |xs|
  {
    if xs != [] {
      var init := xs[..|xs| - 1];
      UpsertUntouched(acc, init, entry, k);
      assert !YieldsKey(entry, xs[|xs| - 1], k);
      assert Fold(acc, xs, Upsert(entry)) == Upsert(entry)(Fold(acc, init, Upsert(entry)), xs[|xs| - 1]);
    }
  }

  /** The last row that yields a key decides that key's entry. */
  lemma {:induction false} UpsertLastRow<K, V, T>(acc: map<K, V>, xs: seq<T>, entry: T -> Option<(K, V)>, i: int)
    requires 0 <= i < |xs| && entry(xs[i]).Some?
    requires forall j :: i < j < |xs| ==> !YieldsKey(entry, xs[j], entry(xs[i]).value.0)
    ensures entry(xs[i]).value.0 in Fold(acc, xs, Upsert(entry))
    ensures Fold(acc, xs, Upsert(entry))[entry(xs[i]).value.0] == entry(xs[i]).value.1
    decreases |xs|
  {
    var init := xs[..|xs| - 1];
    assert Fold(acc, xs, Upsert(entry)) == Upsert(entry)(Fold(acc, init, Upsert(entry)), xs[|xs| - 1]);
    if i < |xs| - 1 {
      assert !YieldsKey(entry, xs[|xs| - 1], entry(xs[i]).value.0);
      assert init[i] == xs[i];
      UpsertLastRow(acc, init, entry, i);
    }
  }

  /** `flag = flag || p(x)` over a list: some element satisfies `p`. */
  predicate AnyOf<T>(xs: seq<T>, p: T -> bool)
    decreases |xs|
  {
    xs != [] && (AnyOf(xs[..|xs| - 1], p) || p(xs[|xs| - 1]))
  }

  lemma {:induction false} AnyOfIff<T>(xs: seq<T>, p: T -> bool)
    ensures AnyOf(xs, p) <==> exists i :: 0 <= i < |xs| && p(xs[i])
    decreases |xs|
  {
    if xs != [] {
      var init := xs[..|xs| - 1];
      AnyOfIff(init, p);
      if AnyOf(init, p) {
        var i :| 0 <= i < |init| && p(init[i]);
        assert xs[i] == init[i];
      }
      if exists i :: 0 <= i < |xs| && p(xs[i]) {
        var i :| 0 <= i < |xs| && p(xs[i]);
        if i < |init| {
          assert xs[i] == init[i];
        }
      }
    }
  }

  /** One more pass of the flag loop. */
  lemma AnyOfStep<T>(xs: seq<T>, i: int, p: T -> bool)
    requires 0 <= i < |xs|
    ensures AnyOf(xs[..i + 1], p) == (AnyOf(xs[..i], p) || p(xs[i]))
  {
    assert xs[..i + 1][..i] == xs[..i];
  }

  /** An upsert over distinct keys whose entries are keyed by the row
      itself: a listed key that yields an entry takes it, and every other
      key keeps what it had. */
  lemma UpsertOwnKeys<K, V>(acc: map<K, V>, xs: seq<K>, entry: K -> Option<(K, V)>, k: K)
    requires forall i, j :: 0 <= i < j < |xs| ==> xs[i] != xs[j]
    requires forall x :: entry(x).Some? ==> entry(x).value.0 == x
    ensures k in xs && entry(k).Some? ==>
              k in Fold(acc, xs, Upsert(entry)) && Fold(acc, xs, Upsert(entry))[k] == entry(k).value.1
    ensures !(k in xs && entry(k).Some?) ==>
              (k in Fold(acc, xs, Upsert(entry)) <==> k in acc)
              && (k in acc ==> Fold(acc, xs, Upsert(entry))[k] == acc[k])
  {
    if k in xs && entry(k).Some? {
      var i :| 0 <= i < |xs| && xs[i] == k;
      UpsertLastRow(acc, xs, entry, i);
    } else {
      UpsertUntouched(acc, xs, entry, k);
    }
  }
}
