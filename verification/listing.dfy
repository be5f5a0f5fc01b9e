/**
 * The query shape both index actions share: keep the rows a where-clause selects, order them by
 * an allow-listed column when there is one, and cut out one page of 15. Rows come in the order
 * the store returns them when no `ORDER BY` is given; with no allowed sort column that order is
 * kept as it is.
 */
module Listing {
  import opened Wrappers
  import opened Php

  /** `paginate(15)`. */
  const PerPage: nat := 15

  /** The `sort_order` passed to `orderBy`. */
  datatype Direction = Asc | Desc

  /** `$request->has('search') && $request->search`: present and truthy. */
  predicate SearchGiven(search: Option<string>): (b: bool)
    ensures search.None? || search == Some("") || search == Some("0") ==> !b
    ensures b ==> search.Some? && |search.value| > 0
    ensures search.Some? && |search.value| > 1 ==> b
    ensures search.Some? && search.value != "" && search.value != "0" ==> b
  {
    search.Some? && Truthy(search.value)
  }

  /** `$request->get('sort_by', 'id')`, kept only when it is in the allow-list. */
  function SortColumn(sortBy: Option<string>, allowed: set<string>): (col: Option<string>)
    ensures col.Some? ==> col.value in allowed
    ensures sortBy.None? && "id" in allowed ==> col == Some("id")
    ensures sortBy.Some? ==> (col.Some? <==> sortBy.value in allowed)
    ensures sortBy.Some? && col.Some? ==> col.value == sortBy.value
  {
    var key := sortBy.GetOr("id");
    if key in allowed then Some(key) else None
  }

  /** The rows a where-clause keeps, in the order they came. */
  function Filter<T(!new)>(xs: seq<T>, keep: T -> bool): (r: seq<T>)
    ensures forall i :: 0 <= i < |r| ==> keep(r[i])
    ensures forall x :: multiset(r)[x] == if keep(x) then multiset(xs)[x] else 0
  {
    if xs == [] then []
    else
      var rest := Filter(xs[1..], keep);
      assert multiset(xs) == multiset{xs[0]} + multiset(xs[1..]) by {
        assert xs == [xs[0]] + xs[1..];
      }
      if keep(xs[0]) then [xs[0]] + rest else rest
  }

  /** A where-clause every row satisfies returns the rows unchanged, order included. */
  lemma {:induction false} FilterKeepsAll<T(!new)>(xs: seq<T>, keep: T -> bool)
    requires forall i :: 0 <= i < |xs| ==> keep(xs[i])
    ensures Filter(xs, keep) == xs
  {
    if xs != [] {
      FilterKeepsAll(xs[1..], keep);
    }
  }

  /** A comparison that relates every pair one way or the other. */
  ghost predicate Total<T(!new)>(le: (T, T) -> bool) {
    forall a, b :: le(a, b) || le(b, a)
  }

  predicate Sorted<T>(xs: seq<T>, le: (T, T) -> bool) {
    forall i :: 0 < i < |xs| ==> le(xs[i - 1], xs[i])
  }

  /** Insert `x` before the first row it does not come after; `x` goes ahead of equal rows. */
  function Insert<T(!new)>(x: T, xs: seq<T>, le: (T, T) -> bool): (r: seq<T>)
    requires Total(le) && Sorted(xs, le)
    ensures Sorted(r, le)
    ensures multiset(r) == multiset(xs) + multiset{x}
    ensures |r| == |xs| + 1 && (r[0] == x || (|xs| > 0 && r[0] == xs[0]))
  {
    if xs == [] then [x]
    else if le(x, xs[0]) then [x] + xs
    else
      assert xs == [xs[0]] + xs[1..];
      [xs[0]] + Insert(x, xs[1..], le)
  }

  /** Insertion sort: an ordering of `xs` by `le` that keeps equal rows in their incoming order. */
  function Sort<T(!new)>(xs: seq<T>, le: (T, T) -> bool): (r: seq<T>)
    requires Total(le)
    ensures Sorted(r, le)
    ensures multiset(r) == multiset(xs)
  {
    if xs == [] then []
    else
      assert xs == [xs[0]] + xs[1..];
      Insert(xs[0], Sort(xs[1..], le), le)
  }

  /** `orderBy` when a column was allowed, the incoming order untouched otherwise. */
  function Arrange<T(!new)>(rows: seq<T>, le: Option<(T, T) -> bool>): (r: seq<T>)
    requires le.Some? ==> Total(le.value)
    ensures multiset(r) == multiset(rows)
    ensures le.Some? ==> Sorted(r, le.value)
    ensures le.None? ==> r == rows
  {
    match le
    case None => rows
    case Some(f) => Sort(rows, f)
  }

  /** A comparison read in the given direction. */
  function Directed<T>(le: (T, T) -> bool, dir: Direction): (T, T) -> bool {
    match dir
    case Asc => le
    case Desc => (a: T, b: T) => le(b, a)
  }

  lemma DirectedTotal<T(!new)>(le: (T, T) -> bool, dir: Direction)
    requires Total(le)
    ensures Total(Directed(le, dir))
  {
  }

  /** Code-point lexicographic order on strings: the binary collation. */
  predicate StrLe(a: string, b: string) {
    if a == [] then true
    else if b == [] then false
    else if a[0] != b[0] then a[0] < b[0]
    else StrLe(a[1..], b[1..])
  }

  lemma {:induction false} StrLeTotal(a: string, b: string)
    ensures StrLe(a, b) || StrLe(b, a)
  {
    if a != [] && b != [] && a[0] == b[0] {
      StrLeTotal(a[1..], b[1..]);
    }
  }

  /** The page number the paginator uses: anything below 1 reads as page 1. */
  function PageNumber(page: int): (p: int)
    ensures p >= 1 && (page >= 1 ==> p == page)
  {
    if page < 1 then 1 else page
  }

  /** The rows of one page: at most `PerPage` rows, starting at `(page - 1) * PerPage`. */
  function PageOf<T>(xs: seq<T>, page: int): (r: seq<T>)
    ensures |r| <= PerPage
    ensures var start := (PageNumber(page) - 1) * PerPage;
            forall i :: 0 <= i < |r| ==> start + i < |xs| && r[i] == xs[start + i]
    ensures var start := (PageNumber(page) - 1) * PerPage;
            |r| == if start >= |xs| then 0 else if |xs| - start < PerPage then |xs| - start else PerPage
  {
    var start := (PageNumber(page) - 1) * PerPage;
    if start >= |xs| then []
    else if |xs| - start < PerPage then xs[start..]
    else xs[start..start + PerPage]
  }
}
