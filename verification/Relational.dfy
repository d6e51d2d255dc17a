/** Joins over bags of rows, and when a join leaves the rows of its left side in
    one-to-one correspondence. */
module Relational {
  import opened Model
  import opened Ordering

  function Project<A, B>(xs: seq<A>, f: A -> B): (r: seq<B>)
    ensures |r| == |xs|
    ensures forall i :: 0 <= i < |xs| ==> r[i] == f(xs[i])
  {
    seq(|xs|, i requires 0 <= i < |xs| => f(xs[i]))
  }

  function JoinOne<A(!new), B(!new)>(x: A, ys: seq<B>, on: (A, B) -> bool): seq<(A, B)> {
    Project(Filter(ys, y => on(x, y)), y => (x, y))
  }

  /** xs JOIN ys ON on */
  function Join<A(!new), B(!new)>(xs: seq<A>, ys: seq<B>, on: (A, B) -> bool): seq<(A, B)> {
    if xs == [] then [] else JoinOne(xs[0], ys, on) + Join(xs[1..], ys, on)
  }

  function LeftJoinOne<A(!new), B(!new)>(x: A, ys: seq<B>, on: (A, B) -> bool): seq<(A, Option<B>)> {
    var found := Filter(ys, y => on(x, y));
    if found == [] then [(x, None)] else Project(found, y => (x, Some(y)))
  }

  /** xs LEFT JOIN ys ON on: a row without a match keeps NULLs. */
  function LeftJoin<A(!new), B(!new)>(xs: seq<A>, ys: seq<B>, on: (A, B) -> bool): seq<(A, Option<B>)> {
    if xs == [] then [] else LeftJoinOne(xs[0], ys, on) + LeftJoin(xs[1..], ys, on)
  }

  function Distinct<A(==)>(xs: seq<A>): seq<A> {
    if xs == [] then [] else if xs[0] in xs[1..] then Distinct(xs[1..]) else [xs[0]] + Distinct(xs[1..])
  }

  /** At most one row of ys joins x. */
  ghost predicate AtMostOne<A(!new), B(!new)>(x: A, ys: seq<B>, on: (A, B) -> bool) {
    forall i, j :: 0 <= i < j < |ys| ==> !(on(x, ys[i]) && on(x, ys[j]))
  }

  ghost predicate AtLeastOne<A(!new), B(!new)>(x: A, ys: seq<B>, on: (A, B) -> bool) {
    exists y :: y in ys && on(x, y)
  }

  lemma {:induction false} FilterAtMostOne<A(!new), B(!new)>(x: A, ys: seq<B>, on: (A, B) -> bool)
    requires AtMostOne(x, ys, on)
    ensures |Filter(ys, y => on(x, y))| <= 1
  {
    if ys != [] {
      FilterAtMostOne(x, ys[1..], on);
      var rest := Filter(ys[1..], y => on(x, y));
      assert |rest| > 0 ==> rest[0] in rest;
      if on(x, ys[0]) {
        forall y | y in ys[1..] ensures !on(x, y) {
          var j :| 0 <= j < |ys[1..]| && ys[1..][j] == y;
          assert ys[j + 1] == y;
        }
      }
    }
  }

  /** A left join on a key that is unique on the right adds no row and loses none. */
  lemma {:induction false} LeftJoinKeepsRows<A(!new), B(!new)>(xs: seq<A>, ys: seq<B>, on: (A, B) -> bool)
    requires forall x :: x in xs ==> AtMostOne(x, ys, on)
    ensures |LeftJoin(xs, ys, on)| == |xs|
    ensures forall i :: 0 <= i < |xs| ==>
      && LeftJoin(xs, ys, on)[i].0 == xs[i]
      && (LeftJoin(xs, ys, on)[i].1.Some? ==> LeftJoin(xs, ys, on)[i].1.value in ys && on(xs[i], LeftJoin(xs, ys, on)[i].1.value))
      && (LeftJoin(xs, ys, on)[i].1.None? ==> forall y :: y in ys ==> !on(xs[i], y))
  {
    if xs != [] {
      LeftJoinKeepsRows(xs[1..], ys, on);
      var wanted := y => on(xs[0], y);
      FilterAtMostOne(xs[0], ys, on);
      var found := Filter(ys, wanted);
      if found == [] {
        forall y | y in ys ensures !on(xs[0], y) {
          assert y in found <==> wanted(y);
        }
      } else {
        assert found[0] in found;
      }
      assert |LeftJoinOne(xs[0], ys, on)| == 1;
    }
  }

  /** A join to a key that exists and is unique on the right pairs each row with it. */
  lemma {:induction false} JoinKeepsRows<A(!new), B(!new)>(xs: seq<A>, ys: seq<B>, on: (A, B) -> bool)
    requires forall x :: x in xs ==> AtMostOne(x, ys, on) && AtLeastOne(x, ys, on)
    ensures |Join(xs, ys, on)| == |xs|
    ensures forall i :: 0 <= i < |xs| ==>
      Join(xs, ys, on)[i].0 == xs[i] && Join(xs, ys, on)[i].1 in ys && on(xs[i], Join(xs, ys, on)[i].1)
  {
    if xs != [] {
      JoinKeepsRows(xs[1..], ys, on);
      var wanted := y => on(xs[0], y);
      FilterAtMostOne(xs[0], ys, on);
      var found := Filter(ys, wanted);
      assert AtLeastOne(xs[0], ys, on);
      var y :| y in ys && on(xs[0], y);
      assert y in found;
      assert found[0] in found;
      assert |JoinOne(xs[0], ys, on)| == 1;
    }
  }

  lemma {:induction false} DistinctRows<A(!new)>(xs: seq<A>)
    ensures NoDuplicates(Distinct(xs))
    ensures forall x :: x in Distinct(xs) <==> x in xs
  {
    if xs != [] {
      DistinctRows(xs[1..]);
      var rest := Distinct(xs[1..]);
      if xs[0] !in xs[1..] {
        forall j | 0 <= j < |rest| ensures rest[j] != xs[0] {
          assert rest[j] in rest;
        }
      }
    }
  }

  lemma ProjectInjective<A(!new), B(!new)>(xs: seq<A>, f: A -> B)
    requires NoDuplicates(xs)
    requires forall x, y :: x in xs && y in xs && f(x) == f(y) ==> x == y
    ensures NoDuplicates(Project(xs, f))
  {
  }
}
