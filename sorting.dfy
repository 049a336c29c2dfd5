/** Python's `sorted` with a key: a stable sort. It is modelled as insertion sort
    with respect to a total preorder `le` ("a may come before b"); a descending
    sort (`reverse=True`) is the same sort under the converse order, since Python
    keeps equal elements in their original order in both directions. */
module Sorting {

  ghost predicate TotalPreorder<T(!new)>(le: (T, T) -> bool) {
    (forall a, b :: le(a, b) || le(b, a))
    && (forall a, b, c :: le(a, b) && le(b, c) ==> le(a, c))
  }

  predicate Sorted<T>(s: seq<T>, le: (T, T) -> bool) {
    forall i, j :: 0 <= i < j < |s| ==> le(s[i], s[j])
  }

  /** Inserts `x` after the last element that may precede it. */
  function Insert<T>(x: T, s: seq<T>, le: (T, T) -> bool): seq<T> {
    if s == [] then [x]
    else if le(s[|s| - 1], x) then s + [x]
    else Insert(x, s[..|s| - 1], le) + [s[|s| - 1]]
  }

  /** The stable sort of `s` by `le`. */
  function Sort<T>(s: seq<T>, le: (T, T) -> bool): seq<T> {
    if s == [] then []
    else Insert(s[|s| - 1], Sort(s[..|s| - 1], le), le)
  }

  /** Insertion adds `x` and loses nothing. */
  lemma {:induction false} InsertPerm<T>(x: T, s: seq<T>, le: (T, T) -> bool)
    ensures multiset(Insert(x, s, le)) == multiset(s) + multiset{x}
    ensures |Insert(x, s, le)| == |s| + 1
    decreases |s|
  {
    if s != [] && !le(s[|s| - 1], x) {
      var init := s[..|s| - 1];
      InsertPerm(x, init, le);
      assert s == init + [s[|s| - 1]];
    }
  }

  /** The sort is a permutation of its input. */
  lemma {:induction false} SortPerm<T>(s: seq<T>, le: (T, T) -> bool)
    ensures multiset(Sort(s, le)) == multiset(s)
    ensures |Sort(s, le)| == |s|
    decreases |s|
  {
    if s != [] {
      var init := s[..|s| - 1];
      SortPerm(init, le);
      InsertPerm(s[|s| - 1], Sort(init, le), le);
      assert s == init + [s[|s| - 1]];
    }
  }

  lemma {:induction false} InsertSorted<T(!new)>(x: T, s: seq<T>, le: (T, T) -> bool)
    requires TotalPreorder(le) && Sorted(s, le)
    ensures Sorted(Insert(x, s, le), le)
    decreases |s|
  {
    if s == [] {
    } else if le(s[|s| - 1], x) {
      var last := s[|s| - 1];
      forall i | 0 <= i < |s| ensures le(s[i], x) {
        if i < |s| - 1 {
          assert le(s[i], last);
        }
      }
    } else {
      var init, last := s[..|s| - 1], s[|s| - 1];
      InsertSorted(x, init, le);
      var r := Insert(x, init, le);
      InsertPerm(x, init, le);
      forall e | e in r ensures le(e, last) {
        assert e in multiset(r);
        if e != x {
          var i :| 0 <= i < |init| && init[i] == e;
          assert s[i] == e;
        }
      }
      assert Insert(x, s, le) == r + [last];
    }
  }

  /** The sort produces an ordered sequence. */
  lemma {:induction false} SortSorted<T(!new)>(s: seq<T>, le: (T, T) -> bool)
    requires TotalPreorder(le)
    ensures Sorted(Sort(s, le), le)
    decreases |s|
  {
    if s != [] {
      SortSorted(s[..|s| - 1], le);
      InsertSorted(s[|s| - 1], Sort(s[..|s| - 1], le), le);
    }
  }

  predicate Equiv<T>(le: (T, T) -> bool, a: T, b: T) {
    le(a, b) && le(b, a)
  }

  /** The elements of `s` equivalent to `z`, in their order in `s`. */
  function Class<T>(s: seq<T>, le: (T, T) -> bool, z: T): (r: seq<T>)
    ensures |r| <= |s|
  {
    if s == [] then []
    else Class(s[..|s| - 1], le, z) + (if Equiv(le, z, s[|s| - 1]) then [s[|s| - 1]] else [])
  }

  lemma {:induction false} ClassAppend<T>(a: seq<T>, b: seq<T>, le: (T, T) -> bool, z: T)
    ensures Class(a + b, le, z) == Class(a, le, z) + Class(b, le, z)
    decreases |b|
  {
    if b != [] {
      assert (a + b)[..|a + b| - 1] == a + b[..|b| - 1];
      ClassAppend(a, b[..|b| - 1], le, z);
    } else {
      assert a + b == a;
    }
  }

  lemma {:induction false} InsertStable<T(!new)>(x: T, s: seq<T>, le: (T, T) -> bool, z: T)
    requires TotalPreorder(le)
    ensures Class(Insert(x, s, le), le, z) == Class(s, le, z) + Class([x], le, z)
    decreases |s|
  {
    if s == [] {
      assert [x][..0] == [];
    } else if le(s[|s| - 1], x) {
      ClassAppend(s, [x], le, z);
    } else {
      InsertStable(x, s[..|s| - 1], le, z);
      NotBothEquiv(x, s[|s| - 1], le, z);
      InsertStableStep(x, s, le, z);
    }
  }

  /** `last` does not precede `x`, so they are not both equivalent to `z`. */
  lemma NotBothEquiv<T(!new)>(x: T, last: T, le: (T, T) -> bool, z: T)
    requires TotalPreorder(le) && !le(last, x)
    ensures !(Equiv(le, z, x) && Equiv(le, z, last))
  {
    assert Equiv(le, z, x) && Equiv(le, z, last) ==> le(last, z) && le(z, x);
  }

  lemma InsertStableStep<T>(x: T, s: seq<T>, le: (T, T) -> bool, z: T)
    requires s != [] && !le(s[|s| - 1], x)
    requires !(Equiv(le, z, x) && Equiv(le, z, s[|s| - 1]))
    requires Class(Insert(x, s[..|s| - 1], le), le, z) == Class(s[..|s| - 1], le, z) + Class([x], le, z)
    ensures Class(Insert(x, s, le), le, z) == Class(s, le, z) + Class([x], le, z)
  {
    var init, last := s[..|s| - 1], s[|s| - 1];
    var r := Insert(x, init, le);
    assert Insert(x, s, le) == r + [last];
    ClassAppend(r, [last], le, z);
    ClassSingle(x, le, z);
    ClassSingle(last, le, z);
    ClassSnoc(s, le, z);
    Swap(Class(init, le, z), Class([x], le, z), Class([last], le, z));
  }

  /** Two pieces of which one is empty commute. */
  lemma Swap<T>(a: seq<T>, b: seq<T>, c: seq<T>)
    requires b == [] || c == []
    ensures (a + b) + c == (a + c) + b
  {
    if b == [] {
      assert a + b == a && (a + c) + b == a + c;
    } else {
      assert a + c == a && (a + b) + c == a + b;
    }
  }

  lemma ClassSingle<T>(x: T, le: (T, T) -> bool, z: T)
    ensures Class([x], le, z) == if Equiv(le, z, x) then [x] else []
  {
    assert [x][..0] == [];
  }

  lemma ClassSnoc<T>(s: seq<T>, le: (T, T) -> bool, z: T)
    requires s != []
    ensures Class(s, le, z) == Class(s[..|s| - 1], le, z) + Class([s[|s| - 1]], le, z)
  {
    ClassSingle(s[|s| - 1], le, z);
  }

  /** Stability: the elements of any one equivalence class leave the sort in the
      order they entered it. */
  lemma {:induction false} SortStable<T(!new)>(s: seq<T>, le: (T, T) -> bool, z: T)
    requires TotalPreorder(le)
    ensures Class(Sort(s, le), le, z) == Class(s, le, z)
    decreases |s|
  {
    if s != [] {
      var init, last := s[..|s| - 1], s[|s| - 1];
      assert s == init + [last];
      ClassAppend(init, [last], le, z);
      InsertStable(last, Sort(init, le), le, z);
      SortStable(init, le, z);
    }
  }

  /** A sequence already in order is returned unchanged. */
  lemma {:induction false} SortOfSorted<T>(s: seq<T>, le: (T, T) -> bool)
    requires Sorted(s, le)
    ensures Sort(s, le) == s
    decreases |s|
  {
    if s != [] {
      var init, last := s[..|s| - 1], s[|s| - 1];
      assert Sorted(init, le) by {
        forall i, j | 0 <= i < j < |init| ensures le(init[i], init[j]) {
          assert init[i] == s[i] && init[j] == s[j];
        }
      }
      SortOfSorted(init, le);
      assert Sort(s, le) == Insert(last, init, le);
      if init != [] {
        assert init[|init| - 1] == s[|s| - 2];
        assert le(s[|s| - 2], last);
      }
      assert Insert(last, init, le) == init + [last];
      assert s == init + [last];
    }
  }
}
