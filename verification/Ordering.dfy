/** ORDER BY, LIMIT and OFFSET: sorting by a strict order, and the fact that a
    strictly ascending listing of a set of rows is unique. */
module Ordering {

  ghost predicate StrictOrder<T(!new)>(before: (T, T) -> bool) {
    && (forall x :: !before(x, x))
    && (forall x, y, z :: before(x, y) && before(y, z) ==> before(x, z))
  }

  ghost predicate Comparable<T(!new)>(s: set<T>, before: (T, T) -> bool) {
    forall x, y :: x in s && y in s && x != y ==> before(x, y) || before(y, x)
  }

  ghost predicate Ascending<T(!new)>(xs: seq<T>, before: (T, T) -> bool) {
    forall i, j :: 0 <= i < j < |xs| ==> before(xs[i], xs[j])
  }

  ghost predicate NoDuplicates<T(!new)>(xs: seq<T>) {
    forall i, j :: 0 <= i < j < |xs| ==> xs[i] != xs[j]
  }

  function Elements<T>(xs: seq<T>): set<T> {
    set x | x in xs
  }

  /** xs lists exactly the members of s, each once, in the given order. */
  ghost predicate Lists<T(!new)>(xs: seq<T>, s: set<T>, before: (T, T) -> bool) {
    Ascending(xs, before) && Elements(xs) == s
  }

  function Insert<T(!new)>(x: T, xs: seq<T>, before: (T, T) -> bool): (r: seq<T>)
    ensures |r| == |xs| + 1
    ensures forall y :: y in r <==> y == x || y in xs
  {
    if xs == [] || before(x, xs[0]) then [x] + xs else [xs[0]] + Insert(x, xs[1..], before)
  }

  function Sort<T(!new)>(xs: seq<T>, before: (T, T) -> bool): (r: seq<T>)
    ensures |r| == |xs|
    ensures forall y :: y in r <==> y in xs
  {
    if xs == [] then [] else Insert(xs[0], Sort(xs[1..], before), before)
  }

  function Filter<T(!new)>(xs: seq<T>, keep: T -> bool): (r: seq<T>)
    ensures |r| <= |xs|
    ensures forall y :: y in r <==> y in xs && keep(y)
  {
    if xs == [] then [] else (if keep(xs[0]) then [xs[0]] else []) + Filter(xs[1..], keep)
  }

  /** LIMIT and OFFSET. */
  function Page<T>(xs: seq<T>, limit: nat, offset: nat): (r: seq<T>)
    ensures |r| <= limit
    ensures offset <= |xs| ==> offset + |r| <= |xs| && r == xs[offset..offset + |r|] && (|r| == limit || offset + |r| == |xs|)
    ensures offset >= |xs| ==> r == []
  {
    if offset >= |xs| then [] else if offset + limit <= |xs| then xs[offset..offset + limit] else xs[offset..]
  }

  lemma {:induction false} InsertAscending<T(!new)>(x: T, xs: seq<T>, before: (T, T) -> bool)
    requires StrictOrder(before) && Ascending(xs, before)
    requires forall y :: y in xs ==> before(x, y) || before(y, x)
    ensures Ascending(Insert(x, xs, before), before)
  {
    if xs != [] && !before(x, xs[0]) {
      InsertAscending(x, xs[1..], before);
      var tail := Insert(x, xs[1..], before);
      forall j | 0 <= j < |tail| ensures before(xs[0], tail[j]) {
        assert tail[j] in tail;
      }
    }
  }

  /** Sorting rows without duplicates lists exactly those rows in order. */
  lemma {:induction false} SortLists<T(!new)>(xs: seq<T>, before: (T, T) -> bool)
    requires StrictOrder(before) && NoDuplicates(xs) && Comparable(Elements(xs), before)
    ensures Lists(Sort(xs, before), Elements(xs), before)
  {
    if xs != [] {
      SortLists(xs[1..], before);
      forall y | y in Sort(xs[1..], before) ensures before(xs[0], y) || before(y, xs[0]) {
        assert y in xs[1..];
        assert y != xs[0];
      }
      InsertAscending(xs[0], Sort(xs[1..], before), before);
    }
  }

  /** Ascending listings of one set are equal, whatever they were computed from. */
  lemma {:induction false} ListingIsUnique<T(!new)>(xs: seq<T>, ys: seq<T>, s: set<T>, before: (T, T) -> bool)
    requires StrictOrder(before) && Lists(xs, s, before) && Lists(ys, s, before)
    ensures xs == ys
    decreases |xs|
  {
    EmptyListing(xs, s, before);
    EmptyListing(ys, s, before);
    if xs != [] {
      assert xs[0] in Elements(ys);
      assert ys[0] in Elements(xs);
      assert xs[0] == ys[0];
      var rest := s - {xs[0]};
      TailLists(xs, s, before);
      TailLists(ys, s, before);
      ListingIsUnique(xs[1..], ys[1..], rest, before);
    }
  }

  lemma EmptyListing<T(!new)>(xs: seq<T>, s: set<T>, before: (T, T) -> bool)
    requires Lists(xs, s, before)
    ensures xs == [] <==> s == {}
  {
    if xs != [] {
      assert xs[0] in Elements(xs);
    }
  }

  lemma TailLists<T(!new)>(xs: seq<T>, s: set<T>, before: (T, T) -> bool)
    requires StrictOrder(before) && Lists(xs, s, before) && xs != []
    ensures Lists(xs[1..], s - {xs[0]}, before)
  {
    forall y ensures y in Elements(xs[1..]) <==> y in s - {xs[0]} {
      if y in xs[1..] {
        var j :| 0 <= j < |xs[1..]| && xs[1..][j] == y;
        assert before(xs[0], xs[j + 1]);
      }
      if y in s && y != xs[0] {
        var j :| 0 <= j < |xs| && xs[j] == y;
        assert xs[1..][j - 1] == y;
      }
    }
  }

  lemma {:induction false} ListingSize<T(!new)>(xs: seq<T>, s: set<T>, before: (T, T) -> bool)
    requires StrictOrder(before) && Lists(xs, s, before)
    ensures |xs| == |s|
    decreases |xs|
  {
    if xs == [] {
      assert s == {};
    } else {
      TailLists(xs, s, before);
      ListingSize(xs[1..], s - {xs[0]}, before);
    }
  }

  lemma {:induction false} FilterNoDuplicates<T(!new)>(xs: seq<T>, keep: T -> bool)
    requires NoDuplicates(xs)
    ensures NoDuplicates(Filter(xs, keep))
    ensures Elements(Filter(xs, keep)) == set x | x in xs && keep(x)
  {
    if xs != [] {
      FilterNoDuplicates(xs[1..], keep);
      var rest := Filter(xs[1..], keep);
      forall j | 0 <= j < |rest| ensures rest[j] != xs[0] {
        assert rest[j] in xs[1..];
      }
    }
  }

  lemma FilterHead<T(!new)>(xs: seq<T>, keep: T -> bool)
    requires xs != []
    ensures Filter(xs, keep) == Kept(xs[0], keep) + Filter(xs[1..], keep)
  {
  }

  function Kept<T(!new)>(x: T, keep: T -> bool): seq<T> {
    if keep(x) then [x] else []
  }

  lemma Regroup<T>(a: seq<T>, b: seq<T>, c: seq<T>)
    ensures a + (b + c) == (a + b) + c
  {
  }

  lemma {:induction false} FilterAppend<T(!new)>(xs: seq<T>, x: T, keep: T -> bool)
    ensures Filter(xs + [x], keep) == Filter(xs, keep) + (if keep(x) then [x] else [])
  {
    if xs == [] {
      assert xs + [x] == [x];
    } else {
      hide Filter, Kept;
      FilterAppend(xs[1..], x, keep);
      FilterHead(xs, keep);
      FilterHead(xs + [x], keep);
      assert (xs + [x])[1..] == xs[1..] + [x] && (xs + [x])[0] == xs[0];
      Regroup(Kept(xs[0], keep), Filter(xs[1..], keep), if keep(x) then [x] else []);
    }
  }

  lemma {:induction false} FilterKeepsAll<T(!new)>(xs: seq<T>, keep: T -> bool)
    requires forall x :: x in xs ==> keep(x)
    ensures Filter(xs, keep) == xs
  {
    if xs != [] {
      FilterKeepsAll(xs[1..], keep);
      assert [xs[0]] + xs[1..] == xs;
    }
  }
}
