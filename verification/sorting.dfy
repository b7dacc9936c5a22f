// The standard library's stable sort, as a function on sequences.

module Sorting {
  import opened Prelude

  predicate Sorted<T>(s: seq<T>, le: (T, T) -> bool) {
    forall i, j :: 0 <= i < j < |s| ==> le(s[i], s[j])
  }

  ghost predicate TotalOrder<T(!new)>(le: (T, T) -> bool) {
    && (forall x, y :: le(x, y) || le(y, x))
    && (forall x, y, z :: le(x, y) && le(y, z) ==> le(x, z))
  }

  /** No two elements are related by `same`. */
  predicate AllDifferent<T>(s: seq<T>, same: (T, T) -> bool) {
    forall i, j :: 0 <= i < j < |s| ==> !same(s[i], s[j])
  }

  /** Places `x` after every element that does not exceed it. */
  function Insert<T>(s: seq<T>, x: T, le: (T, T) -> bool): (r: seq<T>)
    ensures |r| == |s| + 1
  {
    if s == [] || le(s[|s| - 1], x) then s + [x]
    else Insert(s[..|s| - 1], x, le) + [s[|s| - 1]]
  }

  function StableSort<T>(s: seq<T>, le: (T, T) -> bool): (r: seq<T>)
    ensures |r| == |s|
  {
    if s == [] then [] else Insert(StableSort(s[..|s| - 1], le), s[|s| - 1], le)
  }

  lemma {:induction false} InsertElements<T>(s: seq<T>, x: T, le: (T, T) -> bool)
    ensures Elements(Insert(s, x, le)) == Elements(s) + {x}
  {
    if s == [] || le(s[|s| - 1], x) {
    } else {
      var init, last := s[..|s| - 1], s[|s| - 1];
      InsertElements(init, x, le);
      assert Insert(s, x, le) == Insert(init, x, le) + [last];
      assert Elements(Insert(s, x, le)) == Elements(Insert(init, x, le)) + {last};
      assert s == init + [last];
    }
  }

  lemma {:induction false} SortElements<T>(s: seq<T>, le: (T, T) -> bool)
    ensures Elements(StableSort(s, le)) == Elements(s)
  {
    if s != [] {
      SortElements(s[..|s| - 1], le);
      InsertElements(StableSort(s[..|s| - 1], le), s[|s| - 1], le);
      assert s == s[..|s| - 1] + [s[|s| - 1]];
    }
  }

  lemma {:induction false} InsertSorted<T(!new)>(s: seq<T>, x: T, le: (T, T) -> bool)
    requires TotalOrder(le) && Sorted(s, le)
    ensures Sorted(Insert(s, x, le), le)
  {
    if s == [] || le(s[|s| - 1], x) {
      assert forall i :: 0 <= i < |s| ==> i == |s| - 1 || le(s[i], s[|s| - 1]);
    } else {
      var init, last := s[..|s| - 1], s[|s| - 1];
      InsertSorted(init, x, le);
      InsertElements(init, x, le);
      var r := Insert(init, x, le);
      forall i | 0 <= i < |r| ensures le(r[i], last) {
        assert r[i] in Elements(r);
        if r[i] in init {
          var k :| 0 <= k < |init| && init[k] == r[i];
          assert s[k] == r[i];
        }
      }
    }
  }

  lemma {:induction false} SortSorted<T(!new)>(s: seq<T>, le: (T, T) -> bool)
    requires TotalOrder(le)
    ensures Sorted(StableSort(s, le), le)
  {
    if s != [] {
      SortSorted(s[..|s| - 1], le);
      InsertSorted(StableSort(s[..|s| - 1], le), s[|s| - 1], le);
    }
  }

  lemma {:induction false} SortOfSorted<T>(s: seq<T>, le: (T, T) -> bool)
    requires Sorted(s, le)
    ensures StableSort(s, le) == s
  {
    if s != [] {
      SortOfSorted(s[..|s| - 1], le);
      assert s == s[..|s| - 1] + [s[|s| - 1]];
    }
  }

  lemma {:induction false} InsertAllDifferent<T(!new)>(s: seq<T>, x: T, le: (T, T) -> bool, same: (T, T) -> bool)
    requires forall a, b :: same(a, b) == same(b, a)
    requires AllDifferent(s, same)
    requires forall y :: y in s ==> !same(y, x)
    ensures AllDifferent(Insert(s, x, le), same)
  {
    if s == [] || le(s[|s| - 1], x) {
    } else {
      var init, last := s[..|s| - 1], s[|s| - 1];
      InsertAllDifferent(init, x, le, same);
      InsertElements(init, x, le);
      var r := Insert(init, x, le);
      forall i | 0 <= i < |r| ensures !same(r[i], last) {
        assert r[i] in Elements(r);
        if r[i] in init {
          var k :| 0 <= k < |init| && init[k] == r[i];
          assert s[k] == r[i];
        }
      }
    }
  }

  lemma {:induction false} SortAllDifferent<T(!new)>(s: seq<T>, le: (T, T) -> bool, same: (T, T) -> bool)
    requires forall a, b :: same(a, b) == same(b, a)
    requires AllDifferent(s, same)
    ensures AllDifferent(StableSort(s, le), same)
  {
    if s != [] {
      var init, last := s[..|s| - 1], s[|s| - 1];
      SortAllDifferent(init, le, same);
      SortElements(init, le);
      forall y | y in StableSort(init, le) ensures !same(y, last) {
        assert y in Elements(StableSort(init, le)) && y in Elements(init);
        var k :| 0 <= k < |init| && init[k] == y;
        assert s[k] == y;
      }
      InsertAllDifferent(StableSort(init, le), last, le, same);
    }
  }

  /** The elements of `s` that compare equal to `x`, in order. */
  function TiesOf<T>(s: seq<T>, x: T, le: (T, T) -> bool): seq<T> {
    if s == [] then []
    else
      var last := s[|s| - 1];
      TiesOf(s[..|s| - 1], x, le) + if le(last, x) && le(x, last) then [last] else []
  }

  lemma {:induction false} InsertKeepsTies<T(!new)>(s: seq<T>, e: T, x: T, le: (T, T) -> bool)
    requires TotalOrder(le)
    ensures TiesOf(Insert(s, e, le), x, le) == TiesOf(s, x, le) + TiesOf([e], x, le)
  {
    if s == [] || le(s[|s| - 1], e) {
      assert (s + [e])[..|s|] == s;
    } else {
      var init, last := s[..|s| - 1], s[|s| - 1];
      InsertKeepsTies(init, e, x, le);
      var r := Insert(init, e, le);
      assert (r + [last])[..|r|] == r;
    }
  }

  /** Stability: elements that compare equal keep their order. */
  lemma {:induction false} SortKeepsTies<T(!new)>(s: seq<T>, x: T, le: (T, T) -> bool)
    requires TotalOrder(le)
    ensures TiesOf(StableSort(s, le), x, le) == TiesOf(s, x, le)
  {
    if s != [] {
      SortKeepsTies(s[..|s| - 1], x, le);
      InsertKeepsTies(StableSort(s[..|s| - 1], le), s[|s| - 1], x, le);
    }
  }

  lemma HeadIsElement<T>(s: seq<T>)
    requires s != []
    ensures s[0] in Elements(s)
  {
  }

  /** Two strictly ascending sequences with the same elements are equal. */
  lemma {:induction false} AscendingUnique<T(!new)>(s: seq<T>, t: seq<T>, lt: (T, T) -> bool)
    requires forall x :: !lt(x, x)
    requires forall x, y, z :: lt(x, y) && lt(y, z) ==> lt(x, z)
    requires Sorted(s, lt) && Sorted(t, lt)
    requires Elements(s) == Elements(t)
    ensures s == t
  {
    if s == [] {
      assert Elements(s) == {};
      if t != [] { HeadIsElement(t); }
    } else {
      assert s[0] in Elements(t);
      var n, m := |s| - 1, |t| - 1;
      assert s[n] in Elements(t);
      var i :| 0 <= i <= m && t[i] == s[n];
      assert t[m] in Elements(s);
      var j :| 0 <= j <= n && s[j] == t[m];
      assert s[n] == t[m];
      var s', t' := s[..n], t[..m];
      forall x ensures x in Elements(s') <==> x in Elements(t') {
        assert x in Elements(s) <==> x in s' || x == s[n] by { assert s == s' + [s[n]]; }
        assert x in Elements(t) <==> x in t' || x == t[m] by { assert t == t' + [t[m]]; }
        assert s[n] !in s' && t[m] !in t';
      }
      AscendingUnique(s', t', lt);
      assert s == s' + [s[n]] && t == t' + [t[m]];
    }
  }
}
