/**
 * `Array.prototype.sort(cmp)` on a copy: a stable sort driven by a JavaScript
 * comparator, where `cmp(a, b) < 0` puts `a` first, `cmp(a, b) > 0` puts `b` first and
 * `0` keeps the original order. The ECMAScript standard has required a stable sort since
 * the 2019 edition; it is modelled here as insertion sort.
 */
module StableSort {
  import opened SeqLib

  /**
   * A comparator the sort can rely on: it answers `a` before `b` exactly when it answers
   * `b` after `a`, and "not after" is transitive. Every comparator in this project is one.
   */
  ghost predicate Consistent<T(!new)>(cmp: (T, T) -> int) {
    && (forall a, b :: cmp(a, b) < 0 <==> cmp(b, a) > 0)
    && (forall a, b, c :: cmp(a, b) <= 0 && cmp(b, c) <= 0 ==> cmp(a, c) <= 0)
  }

  /** No element is placed after one it should come after. */
  ghost predicate SortedBy<T>(s: seq<T>, cmp: (T, T) -> int) {
    forall i, j :: 0 <= i < j < |s| ==> cmp(s[i], s[j]) <= 0
  }

  /** The elements `cmp` cannot tell apart from `y`. */
  function TiedWith<T>(cmp: (T, T) -> int, y: T): T -> bool {
    x => cmp(x, y) == 0
  }

  /** Places `x` after every element of `t` it does not have to precede. */
  function Insert<T>(t: seq<T>, x: T, cmp: (T, T) -> int): seq<T>
  {
    if t == [] then [x]
    else if cmp(x, t[|t| - 1]) < 0 then Insert(t[..|t| - 1], x, cmp) + [t[|t| - 1]]
    else t + [x]
  }

  /** The stable sort of `s` by `cmp`. */
  function Sort<T>(s: seq<T>, cmp: (T, T) -> int): seq<T>
  {
    if s == [] then []
    else Insert(Sort(s[..|s| - 1], cmp), s[|s| - 1], cmp)
  }

  /** Inserting adds exactly the one element. */
  lemma {:induction false} InsertPermutes<T>(t: seq<T>, x: T, cmp: (T, T) -> int)
    ensures multiset(Insert(t, x, cmp)) == multiset(t) + multiset{x}
  {
    if t != [] {
      var init, last := t[..|t| - 1], t[|t| - 1];
      assert t == init + [last];
      if cmp(x, last) < 0 {
        InsertPermutes(init, x, cmp);
      }
    }
  }

  /** The sort is a permutation: every element keeps its number of occurrences. */
  lemma {:induction false} SortPermutes<T>(s: seq<T>, cmp: (T, T) -> int)
    ensures multiset(Sort(s, cmp)) == multiset(s)
  {
    if s != [] {
      var init, last := s[..|s| - 1], s[|s| - 1];
      assert s == init + [last];
      SortPermutes(init, cmp);
      InsertPermutes(Sort(init, cmp), last, cmp);
    }
  }

  /** Every element of `s` is not after `z`. */
  ghost predicate AllNotAfter<T>(s: seq<T>, z: T, cmp: (T, T) -> int) {
    forall i :: 0 <= i < |s| ==> cmp(s[i], z) <= 0
  }

  lemma {:induction false} InsertNotAfter<T>(t: seq<T>, x: T, z: T, cmp: (T, T) -> int)
    requires AllNotAfter(t, z, cmp) && cmp(x, z) <= 0
    ensures AllNotAfter(Insert(t, x, cmp), z, cmp)
  {
    if t != [] && cmp(x, t[|t| - 1]) < 0 {
      InsertNotAfter(t[..|t| - 1], x, z, cmp);
    }
  }

  lemma {:induction false} InsertSorted<T(!new)>(t: seq<T>, x: T, cmp: (T, T) -> int)
    requires Consistent(cmp) && SortedBy(t, cmp)
    ensures SortedBy(Insert(t, x, cmp), cmp)
  {
    if t != [] {
      var init, last := t[..|t| - 1], t[|t| - 1];
      if cmp(x, last) < 0 {
        InsertSorted(init, x, cmp);
        InsertNotAfter(init, x, last, cmp);
        var front := Insert(init, x, cmp);
        assert Insert(t, x, cmp) == front + [last];
      } else {
        assert cmp(last, x) <= 0;
        forall i | 0 <= i < |t| ensures cmp(t[i], x) <= 0 {
          if i < |t| - 1 {
            assert cmp(t[i], last) <= 0;
          }
        }
        assert Insert(t, x, cmp) == t + [x];
      }
    }
  }

  /** The result of `Sort` is in order. */
  lemma {:induction false} SortSorted<T(!new)>(s: seq<T>, cmp: (T, T) -> int)
    requires Consistent(cmp)
    ensures SortedBy(Sort(s, cmp), cmp)
  {
    if s != [] {
      SortSorted(s[..|s| - 1], cmp);
      InsertSorted(Sort(s[..|s| - 1], cmp), s[|s| - 1], cmp);
    }
  }

  lemma {:induction false} FilterAppend<T>(a: seq<T>, b: seq<T>, p: T -> bool)
    ensures Filter(a + b, p) == Filter(a, p) + Filter(b, p)
  {
    if a == [] {
      assert a + b == b;
    } else {
      FilterAppend(a[1..], b, p);
      var ab := a + b;
      assert ab[0] == a[0] && ab[1..] == a[1..] + b;
      FilterUnfold(ab, p);
      FilterUnfold(a, p);
      var head := if p(a[0]) then [a[0]] else [];
      var x, y := Filter(a[1..], p), Filter(b, p);
      assert head + (x + y) == (head + x) + y;
    }
  }

  /** Two elements tied with the same `y` are never strictly ordered. */
  lemma TiedNotBefore<T(!new)>(cmp: (T, T) -> int, x: T, z: T, y: T)
    requires Consistent(cmp) && cmp(x, y) == 0 && cmp(z, y) == 0
    ensures !(cmp(x, z) < 0)
  {
    assert cmp(y, x) == 0;
    assert cmp(z, x) <= 0;
  }

  lemma FilterSingleton<T>(x: T, p: T -> bool)
    ensures Filter([x], p) == if p(x) then [x] else []
  {
    assert [x][1..] == [];
  }

  /** The step of `InsertStable` where `x` moves in front of the last element. */
  lemma InsertStableStep<T>(init: seq<T>, last: T, x: T, cmp: (T, T) -> int, y: T)
    requires !(TiedWith(cmp, y)(x) && TiedWith(cmp, y)(last))
    requires Filter(Insert(init, x, cmp), TiedWith(cmp, y)) == Filter(init, TiedWith(cmp, y)) + Filter([x], TiedWith(cmp, y))
    ensures Filter(Insert(init, x, cmp) + [last], TiedWith(cmp, y))
         == Filter(init + [last], TiedWith(cmp, y)) + Filter([x], TiedWith(cmp, y))
  {
    var tied := TiedWith(cmp, y);
    var front := Insert(init, x, cmp);
    FilterAppend(init, [last], tied);
    FilterAppend(front, [last], tied);
    FilterSingleton(x, tied);
    FilterSingleton(last, tied);
    var fi, fx, fl := Filter(init, tied), Filter([x], tied), Filter([last], tied);
    if fx == [] {
      assert fi + fx == fi;
      assert (fi + fl) + fx == fi + fl;
    } else {
      assert fl == [];
      assert (fi + fx) + fl == fi + fx;
      assert fi + fl == fi;
    }
  }

  lemma {:induction false} InsertStable<T(!new)>(t: seq<T>, x: T, cmp: (T, T) -> int, y: T)
    requires Consistent(cmp)
    ensures Filter(Insert(t, x, cmp), TiedWith(cmp, y)) == Filter(t, TiedWith(cmp, y)) + Filter([x], TiedWith(cmp, y))
  {
    if t != [] {
      var init, last := t[..|t| - 1], t[|t| - 1];
      assert t == init + [last];
      if cmp(x, last) < 0 {
        assert Insert(t, x, cmp) == Insert(init, x, cmp) + [last];
        InsertStable(init, x, cmp, y);
        if TiedWith(cmp, y)(x) && TiedWith(cmp, y)(last) {
          TiedNotBefore(cmp, x, last, y);
        }
        InsertStableStep(init, last, x, cmp, y);
      } else {
        assert Insert(t, x, cmp) == t + [x];
        FilterAppend(t, [x], TiedWith(cmp, y));
      }
    }
  }

  /**
   * Stability: among elements `cmp` ranks equal, the sort keeps the original order
   * (filtering any class of tied elements out of the result gives the same sequence as
   * filtering it out of the input).
   */
  lemma {:induction false} SortStable<T(!new)>(s: seq<T>, cmp: (T, T) -> int, y: T)
    requires Consistent(cmp)
    ensures Filter(Sort(s, cmp), TiedWith(cmp, y)) == Filter(s, TiedWith(cmp, y))
  {
    if s != [] {
      var init, last := s[..|s| - 1], s[|s| - 1];
      assert s == init + [last];
      SortStable(init, cmp, y);
      InsertStable(Sort(init, cmp), last, cmp, y);
      FilterAppend(init, [last], TiedWith(cmp, y));
    }
  }
}
