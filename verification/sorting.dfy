/** Stable sorting by a comparator, as `Array.prototype.sort` and
    `toSorted` do it. A comparator `compare(a, b)` is read here as the
    relation `le(a, b) := compare(a, b) <= 0`. The engine's sort is stable;
    insertion sort is too (`InsertionSortStable`): elements that tie keep
    their input order. */
module Sorting {
  import opened Common

  ghost predicate Total<T(!new)>(le: (T, T) -> bool) {
    forall a, b :: le(a, b) || le(b, a)
  }

  ghost predicate Transitive<T(!new)>(le: (T, T) -> bool) {
    forall a, b, c :: le(a, b) && le(b, c) ==> le(a, c)
  }

  ghost predicate TotalPreorder<T(!new)>(le: (T, T) -> bool) {
    Total(le) && Transitive(le)
  }

  ghost predicate SortedBy<T>(s: seq<T>, le: (T, T) -> bool) {
    forall i, j :: 0 <= i < j < |s| ==> le(s[i], s[j])
  }

  /** Inserts `x` after every element that is not after it. */
  function Insert<T(!new)>(x: T, s: seq<T>, le: (T, T) -> bool): (r: seq<T>)
    ensures multiset(r) == multiset(s) + multiset{x}
    ensures |r| == |s| + 1
    ensures TotalPreorder(le) && SortedBy(s, le) ==> SortedBy(r, le)
  {
    if s == [] then [x]
    else if le(s[0], x) then
      var tail := Insert(x, s[1..], le);
      assert s == [s[0]] + s[1..];
      assert multiset(s) == multiset{s[0]} + multiset(s[1..]);
      assert multiset([s[0]] + tail) == multiset{s[0]} + multiset(tail);
      InsertKeepsHeadFirst(x, s, tail, le);
      [s[0]] + tail
    else
      InsertAtFront(x, s, le);
      [x] + s
  }

  lemma InsertAtFront<T(!new)>(x: T, s: seq<T>, le: (T, T) -> bool)
    requires s != [] && !le(s[0], x)
    ensures TotalPreorder(le) && SortedBy(s, le) ==> SortedBy([x] + s, le)
  {
    if TotalPreorder(le) && SortedBy(s, le) {
      var r := [x] + s;
      forall i, j | 0 <= i < j < |r|
        ensures le(r[i], r[j])
      {
        if i == 0 {
          assert le(x, s[0]);
          assert r[j] == s[j - 1];
          if j > 1 {
            assert le(s[0], s[j - 1]);
          }
        } else {
          assert r[i] == s[i - 1] && r[j] == s[j - 1];
        }
      }
    }
  }

  lemma InsertKeepsHeadFirst<T(!new)>(x: T, s: seq<T>, tail: seq<T>, le: (T, T) -> bool)
    requires s != [] && le(s[0], x)
    requires multiset(tail) == multiset(s[1..]) + multiset{x}
    requires TotalPreorder(le) && SortedBy(s, le) ==> SortedBy(tail, le)
    ensures TotalPreorder(le) && SortedBy(s, le) ==> SortedBy([s[0]] + tail, le)
  {
    if TotalPreorder(le) && SortedBy(s, le) {
      var r := [s[0]] + tail;
      forall i, j | 0 <= i < j < |r|
        ensures le(r[i], r[j])
      {
        if i == 0 {
          var y := r[j];
          assert y in multiset(tail);
          if y == x {
          } else {
            assert y in multiset(s[1..]);
            var k :| 0 <= k < |s[1..]| && s[1..][k] == y;
            assert s[k + 1] == y;
          }
        }
      }
    }
  }

  /** Stable insertion sort. */
  function InsertionSort<T(!new)>(s: seq<T>, le: (T, T) -> bool): (r: seq<T>)
    ensures multiset(r) == multiset(s)
    ensures |r| == |s|
    ensures TotalPreorder(le) ==> SortedBy(r, le)
  {
    if s == [] then []
    else
      assert s == s[..|s| - 1] + [s[|s| - 1]];
      Insert(s[|s| - 1], InsertionSort(s[..|s| - 1], le), le)
  }

  /** The elements that tie with `z` under `le`. */
  function TiesWith<T(!new)>(z: T, le: (T, T) -> bool): T -> bool {
    x => le(x, z) && le(z, x)
  }

  /** The elements of `s` that tie with `z`, in their order in `s`. */
  function Ties<T(==,!new)>(s: seq<T>, z: T, le: (T, T) -> bool): seq<T> {
    Filter(s, TiesWith(z, le))
  }

  /** Stability: for a total preorder, every group of tying elements
      appears in the sorted result in its input order. */
  lemma {:induction false} InsertionSortStable<T(!new)>(s: seq<T>, le: (T, T) -> bool, z: T)
    requires TotalPreorder(le)
    ensures Ties(InsertionSort(s, le), z, le) == Ties(s, z, le)
  {
    if s != [] {
      var init := s[..|s| - 1];
      var last := s[|s| - 1];
      InsertionSortStable(init, le, z);
      InsertTies(last, InsertionSort(init, le), le, z);
      assert s == init + [last];
      FilterConcat(init, [last], TiesWith(z, le));
    }
  }

  /** `InsertionSortStable` for every group of ties at once. */
  lemma InsertionSortStableAll<T(!new)>(s: seq<T>, le: (T, T) -> bool)
    requires TotalPreorder(le)
    ensures forall z :: Ties(InsertionSort(s, le), z, le) == Ties(s, z, le)
  {
    forall z
      ensures Ties(InsertionSort(s, le), z, le) == Ties(s, z, le)
    {
      InsertionSortStable(s, le, z);
    }
  }

  /** Inserting into a sorted sequence puts `x` after the elements that tie
      with it. */
  lemma {:induction false} InsertTies<T(!new)>(x: T, t: seq<T>, le: (T, T) -> bool, z: T)
    requires TotalPreorder(le) && SortedBy(t, le)
    ensures Ties(Insert(x, t, le), z, le) == Ties(t, z, le) + Ties([x], z, le)
  {
    var keep := TiesWith(z, le);
    if t == [] {
    } else if le(t[0], x) {
      SortedTail(t, le);
      InsertTies(x, t[1..], le, z);
      assert Insert(x, t, le) == [t[0]] + Insert(x, t[1..], le);
      FilterPast(t, x, Insert(x, t[1..], le), Insert(x, t, le), keep);
    } else {
      assert Insert(x, t, le) == [x] + t;
      FilterConcat([x], t, keep);
      if keep(x) {
        forall i | 0 <= i < |t|
          ensures !keep(t[i])
        {
          NoTieBehind(x, t, le, z, i);
        }
        FilterNone(t, keep);
      }
    }
  }

  lemma SortedTail<T(!new)>(t: seq<T>, le: (T, T) -> bool)
    requires t != [] && SortedBy(t, le)
    ensures SortedBy(t[1..], le)
  {
    forall i, j | 0 <= i < j < |t[1..]|
      ensures le(t[1..][i], t[1..][j])
    {
      assert t[1..][i] == t[i + 1] && t[1..][j] == t[j + 1];
    }
  }

  /** Filtering `t[0]` followed by a sequence that filters like the rest
      of `t` then `x` filters like `t` then `x`. */
  lemma FilterPast<T(!new)>(t: seq<T>, x: T, rest: seq<T>, ins: seq<T>, keep: T -> bool)
    requires t != [] && ins == [t[0]] + rest
    requires Filter(rest, keep) == Filter(t[1..], keep) + Filter([x], keep)
    ensures Filter(ins, keep) == Filter(t, keep) + Filter([x], keep)
  {
    assert ins[0] == t[0] && ins[1..] == rest;
    FilterCons(ins, keep);
    FilterCons(t, keep);
    var h := if keep(t[0]) then [t[0]] else [];
    calc {
      Filter(ins, keep);
      h + Filter(rest, keep);
      h + (Filter(t[1..], keep) + Filter([x], keep));
      (h + Filter(t[1..], keep)) + Filter([x], keep);
      Filter(t, keep) + Filter([x], keep);
    }
  }

  /** When `x` goes in front of a sorted sequence, nothing in it ties with
      anything `x` ties with. */
  lemma NoTieBehind<T(!new)>(x: T, t: seq<T>, le: (T, T) -> bool, z: T, i: nat)
    requires TotalPreorder(le) && SortedBy(t, le)
    requires i < |t| && !le(t[0], x) && TiesWith(z, le)(x)
    ensures !TiesWith(z, le)(t[i])
  {
    if i > 0 {
      assert le(t[0], t[i]);
    }
  }
}
