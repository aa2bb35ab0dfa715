/** A stable insertion sort, the model of JavaScript's `Array.prototype.sort`
    (stable since ES2019) with a comparator that orders by one key. */
module Sorting {

  /** Inserts `x` before the first element it may precede. */
  function Insert<T>(x: T, s: seq<T>, le: (T, T) -> bool): (r: seq<T>)
    ensures |r| == |s| + 1
    ensures multiset(r) == multiset(s) + multiset{x}
  {
    if s == [] then [x]
    else if le(x, s[0]) then [x] + s
    else
      assert s == [s[0]] + s[1..];
      [s[0]] + Insert(x, s[1..], le)
  }

  function Sort<T>(s: seq<T>, le: (T, T) -> bool): (r: seq<T>)
    ensures |r| == |s|
    ensures multiset(r) == multiset(s)
  {
    if s == [] then []
    else
      assert s == [s[0]] + s[1..];
      Insert(s[0], Sort(s[1..], le), le)
  }

  ghost predicate TotalPreorder<T(!new)>(le: (T, T) -> bool) {
    && (forall x, y :: le(x, y) || le(y, x))
    && (forall x, y, z :: le(x, y) && le(y, z) ==> le(x, z))
  }

  ghost predicate SortedBy<T>(s: seq<T>, le: (T, T) -> bool) {
    forall i, j :: 0 <= i < j < |s| ==> le(s[i], s[j])
  }

  lemma {:induction false} InsertSorted<T(!new)>(x: T, s: seq<T>, le: (T, T) -> bool)
    requires TotalPreorder(le)
    requires SortedBy(s, le)
    ensures SortedBy(Insert(x, s, le), le)
  {
    if s != [] && !le(x, s[0]) {
      InsertSorted(x, s[1..], le);
      var r := Insert(x, s, le);
      var t := Insert(x, s[1..], le);
      assert r == [s[0]] + t;
      forall k | 0 <= k < |t| ensures le(s[0], t[k]) {
        assert t[k] in multiset(t);
        assert t[k] in multiset(s[1..]) + multiset{x};
        if t[k] in multiset(s[1..]) {
          var m :| 0 <= m < |s[1..]| && s[1..][m] == t[k];
          assert s[m + 1] == t[k];
        }
      }
    }
  }

  lemma {:induction false} SortSorted<T(!new)>(s: seq<T>, le: (T, T) -> bool)
    requires TotalPreorder(le)
    ensures SortedBy(Sort(s, le), le)
  {
    if s != [] {
      SortSorted(s[1..], le);
      InsertSorted(s[0], Sort(s[1..], le), le);
    }
  }

  /** The tail of a sorted sequence is sorted. */
  lemma SortedTail<T>(a: seq<T>, le: (T, T) -> bool)
    requires a != [] && SortedBy(a, le)
    ensures SortedBy(a[1..], le)
  {
    forall i, j | 0 <= i < j < |a| - 1 ensures le(a[1..][i], a[1..][j]) {
      assert a[1..][i] == a[i + 1] && a[1..][j] == a[j + 1];
    }
  }

  /** Two sorted sequences with the same elements start alike. */
  lemma SortedHeads<T(!new)>(a: seq<T>, b: seq<T>, le: (T, T) -> bool)
    requires TotalPreorder(le)
    requires forall x, y :: le(x, y) && le(y, x) ==> x == y
    requires a != [] && SortedBy(a, le) && SortedBy(b, le)
    requires multiset(a) == multiset(b)
    ensures b != [] && a[0] == b[0]
    ensures multiset(a[1..]) == multiset(b[1..])
  {
    assert |a| == |multiset(a)| == |b|;
    assert a[0] in multiset(b);
    var i :| 0 <= i < |b| && b[i] == a[0];
    assert b[0] in multiset(a);
    var j :| 0 <= j < |a| && a[j] == b[0];
    assert le(b[0], b[i]) && le(a[0], a[j]);
    assert a[0] == b[0];
    assert a == [a[0]] + a[1..] && b == [b[0]] + b[1..];
    calc {
      multiset(a[1..]);
      multiset(a) - multiset{a[0]};
      multiset(b) - multiset{b[0]};
      multiset(b[1..]);
    }
  }

  /** Two sorted sequences with the same elements are equal, when the order is antisymmetric. */
  lemma {:induction false} SortedUnique<T(!new)>(a: seq<T>, b: seq<T>, le: (T, T) -> bool)
    requires TotalPreorder(le)
    requires forall x, y :: le(x, y) && le(y, x) ==> x == y
    requires SortedBy(a, le) && SortedBy(b, le)
    requires multiset(a) == multiset(b)
    ensures a == b
  {
    if a != [] {
      SortedHeads(a, b, le);
      SortedTail(a, le);
      SortedTail(b, le);
      SortedUnique(a[1..], b[1..], le);
      assert a == [a[0]] + a[1..] && b == [b[0]] + b[1..];
    } else {
      assert |b| == |multiset(b)| == 0;
    }
  }

  function Filter<T>(s: seq<T>, p: T -> bool): (r: seq<T>)
    ensures |r| <= |s|
    ensures forall i :: 0 <= i < |r| ==> p(r[i])
  {
    if s == [] then [] else if p(s[0]) then [s[0]] + Filter(s[1..], p) else Filter(s[1..], p)
  }

  /** The filter keeps exactly the elements with the property. */
  lemma {:induction false} FilterHas<T>(s: seq<T>, p: T -> bool, x: T)
    ensures x in Filter(s, p) <==> x in s && p(x)
    decreases |s|
  {
    if s != [] {
      FilterHas(s[1..], p, x);
      assert x in s <==> x == s[0] || x in s[1..];
    }
  }

  /** The same, for every element at once. */
  lemma FilterMembers<T>(s: seq<T>, p: T -> bool)
    ensures forall x :: x in Filter(s, p) <==> x in s && p(x)
  {
    forall x ensures x in Filter(s, p) <==> x in s && p(x) {
      FilterHas(s, p, x);
    }
  }

  /** `r` lists `s` at increasing positions `idx`, and every position of `s`
      whose element has the property is among them. */
  ghost predicate PicksAt<T>(r: seq<T>, s: seq<T>, p: T -> bool, idx: seq<int>) {
    && |idx| == |r|
    && (forall i :: 0 <= i < |idx| ==> 0 <= idx[i] < |s| && s[idx[i]] == r[i])
    && (forall i, j :: 0 <= i < j < |idx| ==> idx[i] < idx[j])
    && (forall k :: 0 <= k < |s| && p(s[k]) ==> k in idx)
  }

  /** Every position shifted by one. */
  function ShiftIndices(idx: seq<int>): (r: seq<int>)
    ensures |r| == |idx| && forall i :: 0 <= i < |idx| ==> r[i] == idx[i] + 1
  {
    seq(|idx|, i requires 0 <= i < |idx| => idx[i] + 1)
  }

  /** An element without the property in front changes nothing picked. */
  lemma PicksSkip<T>(x: T, r: seq<T>, s: seq<T>, p: T -> bool, idx: seq<int>)
    requires PicksAt(r, s, p, idx) && !p(x)
    ensures PicksAt(r, [x] + s, p, ShiftIndices(idx))
  {
    var s' := [x] + s;
    var sh := ShiftIndices(idx);
    forall i | 0 <= i < |sh| ensures 0 <= sh[i] < |s'| && s'[sh[i]] == r[i] {
      assert s'[idx[i] + 1] == s[idx[i]];
    }
    forall k | 0 <= k < |s'| && p(s'[k]) ensures k in sh {
      assert k != 0 && s'[k] == s[k - 1];
      var i :| 0 <= i < |idx| && idx[i] == k - 1;
      assert sh[i] == k;
    }
  }

  /** Position 0, then every position shifted by one. */
  function KeepIndices(idx: seq<int>): (r: seq<int>)
    ensures |r| == |idx| + 1 && r[0] == 0
    ensures forall i :: 0 < i < |r| ==> r[i] == idx[i - 1] + 1
  {
    [0] + ShiftIndices(idx)
  }

  /** PicksKeep: the positions still name the picked elements. */
  lemma KeepPositions<T>(x: T, r: seq<T>, s: seq<T>, idx: seq<int>)
    requires |idx| == |r| && forall i :: 0 <= i < |idx| ==> 0 <= idx[i] < |s| && s[idx[i]] == r[i]
    ensures forall i :: 0 <= i < |KeepIndices(idx)| ==>
              0 <= KeepIndices(idx)[i] < |[x] + s| && ([x] + s)[KeepIndices(idx)[i]] == ([x] + r)[i]
  {
    var s', r', sh := [x] + s, [x] + r, KeepIndices(idx);
    forall i | 0 < i < |sh| ensures 0 < sh[i] < |s'| && s'[sh[i]] == r'[i] {
      assert r'[i] == r[i - 1] && s'[idx[i - 1] + 1] == s[idx[i - 1]];
    }
  }

  /** PicksKeep: the positions still increase. */
  lemma KeepIncreasing(idx: seq<int>)
    requires forall i :: 0 <= i < |idx| ==> 0 <= idx[i]
    requires forall i, j :: 0 <= i < j < |idx| ==> idx[i] < idx[j]
    ensures forall i, j :: 0 <= i < j < |KeepIndices(idx)| ==> KeepIndices(idx)[i] < KeepIndices(idx)[j]
  {
    var sh := KeepIndices(idx);
    forall i, j | 0 <= i < j < |sh| ensures sh[i] < sh[j] {
      assert sh[j] == idx[j - 1] + 1;
    }
  }

  /** PicksKeep: every position with the property is still picked. */
  lemma KeepComplete<T>(x: T, s: seq<T>, p: T -> bool, idx: seq<int>)
    requires forall k :: 0 <= k < |s| && p(s[k]) ==> k in idx
    ensures forall k :: 0 <= k < |[x] + s| && p(([x] + s)[k]) ==> k in KeepIndices(idx)
  {
    var s', sh := [x] + s, KeepIndices(idx);
    forall k | 0 <= k < |s'| && p(s'[k]) ensures k in sh {
      if k > 0 {
        assert s'[k] == s[k - 1];
        var i :| 0 <= i < |idx| && idx[i] == k - 1;
        assert sh[i + 1] == k;
      }
    }
  }

  /** An element with the property in front is picked first. */
  lemma PicksKeep<T>(x: T, r: seq<T>, s: seq<T>, p: T -> bool, idx: seq<int>)
    requires PicksAt(r, s, p, idx) && p(x)
    ensures PicksAt([x] + r, [x] + s, p, KeepIndices(idx))
  {
    KeepPositions(x, r, s, idx);
    KeepIncreasing(idx);
    KeepComplete(x, s, p, idx);
  }

  /** The filter keeps every element with the property, in order. */
  lemma {:induction false} FilterPicks<T>(s: seq<T>, p: T -> bool)
    ensures exists idx :: PicksAt(Filter(s, p), s, p, idx)
    decreases |s|
  {
    if s == [] {
      assert PicksAt(Filter(s, p), s, p, []);
    } else {
      FilterPicks(s[1..], p);
      var idx :| PicksAt(Filter(s[1..], p), s[1..], p, idx);
      assert [s[0]] + s[1..] == s;
      if p(s[0]) {
        PicksKeep(s[0], Filter(s[1..], p), s[1..], p, idx);
        assert PicksAt(Filter(s, p), s, p, KeepIndices(idx));
      } else {
        PicksSkip(s[0], Filter(s[1..], p), s[1..], p, idx);
        assert PicksAt(Filter(s, p), s, p, ShiftIndices(idx));
      }
    }
  }

  /** `p` picks out one equivalence class of `le`. */
  ghost predicate IsClassOf<T(!new)>(p: T -> bool, le: (T, T) -> bool) {
    forall x, y :: p(x) ==> (p(y) <==> le(x, y) && le(y, x))
  }

  lemma {:induction false} FilterInsert<T(!new)>(x: T, s: seq<T>, le: (T, T) -> bool, p: T -> bool)
    requires TotalPreorder(le)
    requires IsClassOf(p, le)
    ensures Filter(Insert(x, s, le), p) == if p(x) then [x] + Filter(s, p) else Filter(s, p)
  {
    if s != [] && !le(x, s[0]) {
      FilterInsert(x, s[1..], le, p);
      if p(x) {
        assert !p(s[0]);
      }
    }
  }

  /** Stability: within one equivalence class the sort keeps the input order. */
  lemma {:induction false} SortStable<T(!new)>(s: seq<T>, le: (T, T) -> bool, p: T -> bool)
    requires TotalPreorder(le)
    requires IsClassOf(p, le)
    ensures Filter(Sort(s, le), p) == Filter(s, p)
  {
    if s != [] {
      SortStable(s[1..], le, p);
      FilterInsert(s[0], Sort(s[1..], le), le, p);
    }
  }

  // ---------------------------------------------------------------------
  // Orders used by the model

  function RealLe(a: real, b: real): bool { a <= b }

  lemma RealLeTotalPreorder()
    ensures TotalPreorder(RealLe)
  {
  }

  /** Lexicographic order of code points. It agrees with `<` on JavaScript
      strings (UTF-16 code units) below U+10000, and with `localeCompare` on
      the ASCII date strings the model compares. */
  predicate StrLe(a: string, b: string)
    decreases |a|
  {
    a == [] || (b != [] && (a[0] < b[0] || (a[0] == b[0] && StrLe(a[1..], b[1..]))))
  }

  predicate StrLt(a: string, b: string) { StrLe(a, b) && a != b }

  lemma {:induction false} StrLeTotal(a: string, b: string)
    ensures StrLe(a, b) || StrLe(b, a)
  {
    if a != [] && b != [] && a[0] == b[0] { StrLeTotal(a[1..], b[1..]); }
  }

  lemma {:induction false} StrLeTrans(a: string, b: string, c: string)
    requires StrLe(a, b) && StrLe(b, c)
    ensures StrLe(a, c)
  {
    if a != [] && b != [] && c != [] && a[0] == b[0] && b[0] == c[0] {
      StrLeTrans(a[1..], b[1..], c[1..]);
    }
  }

  lemma {:induction false} StrLeAntisym(a: string, b: string)
    requires StrLe(a, b) && StrLe(b, a)
    ensures a == b
  {
    if a != [] && b != [] {
      StrLeAntisym(a[1..], b[1..]);
      assert a == [a[0]] + a[1..] && b == [b[0]] + b[1..];
    }
  }

  lemma StrLeRefl(a: string)
    ensures StrLe(a, a)
  {
  }

  lemma StrLeTotalPreorder()
    ensures TotalPreorder(StrLe)
  {
    forall x, y ensures StrLe(x, y) || StrLe(y, x) { StrLeTotal(x, y); }
    forall x, y, z | StrLe(x, y) && StrLe(y, z) ensures StrLe(x, z) { StrLeTrans(x, y, z); }
  }
}
