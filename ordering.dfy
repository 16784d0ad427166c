/** The comparators of `_orderBy` and the sorted copy `_sortBy` renders. */
module Ordering {
  import opened Wrappers
  import opened Workouts

  /** The workout property named by the sort menu (`sortMenu.value`). */
  datatype Field = ByDistance | ByDuration | ByCadence | ByElevation | ByPace | BySpeed

  /** `w[field]`: `None` when the workout has no such property (a ride has
      no cadence or pace, a run no elevation or speed), which JavaScript
      reads as `undefined`. */
  function Key(w: Workout, f: Field): (k: Option<real>)
    ensures k.None? <==> (f in {ByCadence, ByPace} && w.Cycling?) || (f in {ByElevation, BySpeed} && w.Running?)
  {
    match f
    case ByDistance => Some(w.distance)
    case ByDuration => Some(w.duration)
    case ByCadence => if w.Running? then Some(w.cadence) else None
    case ByPace => if w.Running? then Some(w.pace) else None
    case ByElevation => if w.Cycling? then Some(w.elevation) else None
    case BySpeed => if w.Cycling? then Some(w.speed) else None
  }

  /** JavaScript's `<` on two property values: a comparison involving
      `undefined` is false. */
  function Less(x: Option<real>, y: Option<real>): (less: bool)
    ensures x.None? || y.None? ==> !less
    ensures less ==> x != y
  {
    x.Some? && y.Some? && x.value < y.value
  }

  /** On defined values `<` is a strict total order: irreflexive,
      asymmetric, transitive, and any two different values are related. */
  lemma LessStrictOrder(x: Option<real>, y: Option<real>, z: Option<real>)
    ensures !Less(x, x)
    ensures Less(x, y) ==> !Less(y, x)
    ensures Less(x, y) && Less(y, z) ==> Less(x, z)
    ensures x.Some? && y.Some? && x != y ==> Less(x, y) || Less(y, x)
  {
  }

  /** The `asc` comparator. */
  function Asc(a: Workout, b: Workout, f: Field): (r: int)
    ensures r < 0 <==> Less(Key(a, f), Key(b, f))
    ensures r > 0 <==> Less(Key(b, f), Key(a, f))
    ensures r == 0 <==> !Less(Key(a, f), Key(b, f)) && !Less(Key(b, f), Key(a, f))
  {
    if Less(Key(a, f), Key(b, f)) then -1
    else if Less(Key(b, f), Key(a, f)) then 1
    else 0
  }

  /** The `desc` comparator, written out separately in the source; it is the
      mirror image of `asc`. */
  function Desc(a: Workout, b: Workout, f: Field): (r: int)
    ensures r == -Asc(a, b, f)
  {
    if Less(Key(b, f), Key(a, f)) then -1
    else if Less(Key(a, f), Key(b, f)) then 1
    else 0
  }

  /** The comparator `_orderBy` hands to `sort`, chosen by the direction. */
  function Comparator(f: Field, ascending: bool): (cmp: (Workout, Workout) -> int)
    ensures forall a, b :: cmp(a, b) == if ascending then Asc(a, b, f) else Desc(a, b, f)
  {
    if ascending then (a, b) => Asc(a, b, f) else (a, b) => Desc(a, b, f)
  }

  /** Swapping the arguments of `cmp` negates its answer, on the elements
      of `u`. */
  predicate Antisymmetric<T(==)>(cmp: (T, T) -> int, u: seq<T>) {
    forall a, b {:trigger cmp(a, b)} :: a in u && b in u ==> cmp(a, b) == -cmp(b, a)
  }

  /** "Not after" by `cmp` is transitive on the elements of `u`. */
  predicate Transitive<T(==)>(cmp: (T, T) -> int, u: seq<T>) {
    forall a, b, c {:trigger cmp(a, b), cmp(b, c)} ::
      a in u && b in u && c in u && cmp(a, b) <= 0 && cmp(b, c) <= 0 ==> cmp(a, c) <= 0
  }

  /** `cmp` behaves as a total preorder on the elements of `u`. */
  predicate Consistent<T(==)>(cmp: (T, T) -> int, u: seq<T>) {
    Antisymmetric(cmp, u) && Transitive(cmp, u)
  }

  /** Every element comes no later than those after it, by `cmp`. */
  predicate Ordered<T>(s: seq<T>, cmp: (T, T) -> int) {
    forall i, j :: 0 <= i < j < |s| ==> cmp(s[i], s[j]) <= 0
  }

  /** Places `x` after every element of `s` that `cmp` does not put after
      it, so that elements comparing equal keep their order. */
  function Insert<T>(x: T, s: seq<T>, cmp: (T, T) -> int): (r: seq<T>)
    ensures multiset(r) == multiset(s) + multiset{x}
  {
    if s == [] then [x]
    else if cmp(x, s[0]) < 0 then [x] + s
    else
      assert s == [s[0]] + s[1..];
      [s[0]] + Insert(x, s[1..], cmp)
  }

  /** `array.slice().sort(cmp)`: a stable sort of a copy, modelled as
      insertion in order of appearance. */
  function SortedCopy<T>(s: seq<T>, cmp: (T, T) -> int): (r: seq<T>)
    ensures multiset(r) == multiset(s)
  {
    if s == [] then []
    else
      assert s == s[..|s| - 1] + [s[|s| - 1]];
      Insert(s[|s| - 1], SortedCopy(s[..|s| - 1], cmp), cmp)
  }

  /** Putting in front of an ordered sequence an element that comes no later
      than any of its elements keeps it ordered. */
  lemma OrderedPrepend<T>(x: T, s: seq<T>, cmp: (T, T) -> int)
    requires Ordered(s, cmp)
    requires forall j :: 0 <= j < |s| ==> cmp(x, s[j]) <= 0
    ensures Ordered([x] + s, cmp)
  {
    var r := [x] + s;
    forall i, j | 0 <= i < j < |r| ensures cmp(r[i], r[j]) <= 0 {
      if i == 0 {
        assert r[j] == s[j - 1];
      } else {
        assert r[i] == s[i - 1] && r[j] == s[j - 1];
      }
    }
  }

  lemma {:induction false} InsertOrdered<T>(x: T, s: seq<T>, cmp: (T, T) -> int, u: seq<T>)
    requires Consistent(cmp, u) && x in u && forall y :: y in s ==> y in u
    requires Ordered(s, cmp)
    ensures Ordered(Insert(x, s, cmp), cmp)
  {
    if s == [] {
      assert Insert(x, s, cmp) == [x];
    } else if cmp(x, s[0]) < 0 {
      assert Insert(x, s, cmp) == [x] + s;
      forall j | 0 <= j < |s| ensures cmp(x, s[j]) <= 0 {
        if j > 0 {
          assert s[0] in u && s[j] in u;
          assert cmp(s[0], s[j]) <= 0;
        }
      }
      OrderedPrepend(x, s, cmp);
    } else {
      var s' := s[1..];
      var tail := Insert(x, s', cmp);
      assert Insert(x, s, cmp) == [s[0]] + tail;
      assert forall y :: y in s' ==> y in s;
      InsertOrdered(x, s', cmp, u);
      assert s[0] in u && cmp(x, s[0]) == -cmp(s[0], x);
      forall j | 0 <= j < |tail| ensures cmp(s[0], tail[j]) <= 0 {
        assert tail[j] in multiset(tail);
        assert tail[j] in multiset(s') + multiset{x};
        if tail[j] != x {
          assert tail[j] in multiset(s');
          var k :| 0 <= k < |s'| && s'[k] == tail[j];
          assert s[k + 1] == tail[j];
        }
      }
      OrderedPrepend(s[0], tail, cmp);
    }
  }

  /** Under a consistent comparator the sorted copy is in comparator order. */
  lemma {:induction false} SortedCopyOrdered<T>(s: seq<T>, cmp: (T, T) -> int, u: seq<T>)
    requires Consistent(cmp, u) && forall y :: y in s ==> y in u
    ensures Ordered(SortedCopy(s, cmp), cmp)
  {
    if s != [] {
      var init := s[..|s| - 1];
      assert forall y :: y in init ==> y in s;
      SortedCopyOrdered(init, cmp, u);
      var sorted := SortedCopy(init, cmp);
      forall y | y in sorted ensures y in u {
        assert y in multiset(init);
      }
      InsertOrdered(s[|s| - 1], sorted, cmp, u);
    }
  }

  /** Removing the same element from both ends of two arrangements of the
      same elements leaves arrangements of the same elements. */
  lemma MultisetWithoutEnds<T>(a: seq<T>, d: seq<T>)
    requires |a| > 0 && multiset(a) == multiset(d) && a[0] == d[|d| - 1]
    ensures multiset(a[1..]) == multiset(d[..|d| - 1])
  {
    assert a == [a[0]] + a[1..];
    assert d == d[..|d| - 1] + [d[|d| - 1]];
    assert multiset(a[1..]) == multiset(a) - multiset{a[0]};
    assert multiset(d[..|d| - 1]) == multiset(d) - multiset{d[|d| - 1]};
  }

  /** The first element of `a` and the last of `d` coincide, when `a` is
      ordered by `cmp`, `d` by its mirror image, and `cmp` ties no two
      different elements. */
  lemma MirrorEnds<T>(a: seq<T>, d: seq<T>, cmp: (T, T) -> int, mirror: (T, T) -> int, u: seq<T>)
    requires |a| > 0 && multiset(a) == multiset(d) && forall y :: y in a ==> y in u
    requires Antisymmetric(cmp, u)
    requires forall x, y :: x in u && y in u && cmp(x, y) == 0 ==> x == y
    requires forall x, y :: mirror(x, y) == -cmp(x, y)
    requires Ordered(a, cmp) && Ordered(d, mirror)
    ensures |d| > 0 && a[0] == d[|d| - 1]
  {
    var n := |d|;
    assert |d| == |multiset(d)| == |a|;
    var first, last := a[0], d[n - 1];
    assert last in multiset(a);
    var m :| 0 <= m < |a| && a[m] == last;
    assert first in multiset(d);
    var k :| 0 <= k < n && d[k] == first;
    assert first in u && last in u;
    if m > 0 && k < n - 1 {
      assert cmp(first, last) <= 0;
      assert mirror(first, last) <= 0;
    }
  }

  /** Two arrangements of the same elements, one ordered by `cmp` and the
      other by its mirror image, are each other's reverse when `cmp` ties
      no two different elements. */
  lemma {:induction false} MirrorReverses<T>(a: seq<T>, d: seq<T>, cmp: (T, T) -> int, mirror: (T, T) -> int, u: seq<T>)
    requires multiset(a) == multiset(d) && forall y :: y in a ==> y in u
    requires Antisymmetric(cmp, u)
    requires forall x, y :: x in u && y in u && cmp(x, y) == 0 ==> x == y
    requires forall x, y :: mirror(x, y) == -cmp(x, y)
    requires Ordered(a, cmp) && Ordered(d, mirror)
    ensures |a| == |d| && forall i :: 0 <= i < |a| ==> d[i] == a[|a| - 1 - i]
  {
    assert |a| == |multiset(a)| == |d|;
    if |a| > 0 {
      MirrorEnds(a, d, cmp, mirror, u);
      MultisetWithoutEnds(a, d);
      var a', d' := a[1..], d[..|d| - 1];
      forall y | y in a' ensures y in u { assert y in a; }
      MirrorReverses(a', d', cmp, mirror, u);
    }
  }

  /** On workouts whose `f` values are all defined, `asc` and `desc` are
      consistent comparators. */
  lemma ComparatorConsistent(ws: seq<Workout>, f: Field, ascending: bool)
    requires forall w :: w in ws ==> Key(w, f).Some?
    ensures Consistent(Comparator(f, ascending), ws)
  {
  }

  /** With every key defined, the sorted copy is in `asc` or `desc` order. */
  lemma SortedByField(ws: seq<Workout>, f: Field, ascending: bool)
    requires forall w :: w in ws ==> Key(w, f).Some?
    ensures var r := SortedCopy(ws, Comparator(f, ascending));
      && multiset(r) == multiset(ws)
      && forall i, j :: 0 <= i < j < |r| ==>
           if ascending then !Less(Key(r[j], f), Key(r[i], f))
           else !Less(Key(r[i], f), Key(r[j], f))
  {
    var cmp := Comparator(f, ascending);
    ComparatorConsistent(ws, f, ascending);
    SortedCopyOrdered(ws, cmp, ws);
    var r := SortedCopy(ws, cmp);
    forall i | 0 <= i < |r| ensures r[i] in ws { assert r[i] in multiset(ws); }
  }

  /** On workouts with distinct defined `f` values, `asc` ties no two
      different workouts. */
  lemma AscTiesOnlyEqual(ws: seq<Workout>, f: Field)
    requires forall w :: w in ws ==> Key(w, f).Some?
    requires forall a, b :: a in ws && b in ws && Key(a, f) == Key(b, f) ==> a == b
    ensures forall a, b :: a in ws && b in ws && Comparator(f, true)(a, b) == 0 ==> a == b
  {
  }

  /** Sorting by a comparator that ties no two different elements, and by
      its mirror image, gives results that are each other's reverse. */
  lemma SortMirrorReverses<T>(s: seq<T>, cmp: (T, T) -> int, mirror: (T, T) -> int)
    requires Consistent(cmp, s) && Consistent(mirror, s)
    requires forall x, y :: x in s && y in s && cmp(x, y) == 0 ==> x == y
    requires forall x, y :: mirror(x, y) == -cmp(x, y)
    ensures var up, down := SortedCopy(s, cmp), SortedCopy(s, mirror);
      |down| == |up| && forall i :: 0 <= i < |up| ==> down[i] == up[|up| - 1 - i]
  {
    SortedCopyOrdered(s, cmp, s);
    SortedCopyOrdered(s, mirror, s);
    var up, down := SortedCopy(s, cmp), SortedCopy(s, mirror);
    forall y | y in up ensures y in s { assert y in multiset(s); }
    MirrorReverses(up, down, cmp, mirror, s);
  }

  /** Sorting descending gives the ascending result backwards, for a field on
      which the workouts all have distinct values. */
  lemma DescReversesAsc(ws: seq<Workout>, f: Field)
    requires forall w :: w in ws ==> Key(w, f).Some?
    requires forall a, b :: a in ws && b in ws && Key(a, f) == Key(b, f) ==> a == b
    ensures var asc, desc := SortedCopy(ws, Comparator(f, true)), SortedCopy(ws, Comparator(f, false));
      |desc| == |asc| && forall i :: 0 <= i < |asc| ==> desc[i] == asc[|asc| - 1 - i]
  {
    ComparatorConsistent(ws, f, true);
    ComparatorConsistent(ws, f, false);
    AscTiesOnlyEqual(ws, f);
    SortMirrorReverses(ws, Comparator(f, true), Comparator(f, false));
  }
}
