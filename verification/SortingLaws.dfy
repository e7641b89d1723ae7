/** Sorting keeps the order of what ties, as the sorts of the original do, and gathering keeps everything. */
module SortingLaws {
  import opened Sorting

  lemma {:induction false} FilterCons<T(!new)>(x: T, s: seq<T>, f: T -> bool)
    ensures Filter([x] + s, f) == (if f(x) then [x] else []) + Filter(s, f)
  {
    if s == [] {
      assert [x] + s == [x];
      assert Filter([x], f) == if f(x) then [x] else [];
    } else {
      var front, last := s[..|s| - 1], s[|s| - 1];
      FilterCons(x, front, f);
      assert ([x] + s)[..|s|] == [x] + front;
    }
  }

  /** An element goes before the ones it ties with. */
  lemma {:induction false} InsertFirst<T(!new)>(x: T, s: seq<T>, le: (T, T) -> bool, f: T -> bool)
    requires f(x) ==> forall y | f(y) :: le(x, y)
    ensures Filter(Insert(x, s, le), f) == (if f(x) then [x] else []) + Filter(s, f)
  {
    if s == [] {
      FilterCons(x, [], f);
      assert [x] + [] == [x];
    } else if le(x, s[0]) {
      FilterCons(x, s, f);
    } else {
      InsertFirst(x, s[1..], le, f);
      FilterCons(s[0], Insert(x, s[1..], le), f);
      FilterCons(s[0], s[1..], f);
      assert s == [s[0]] + s[1..];
    }
  }

  /** Of the elements that all tie with each other, sorting keeps every one, in the order they had. */
  lemma {:induction false} SortStable<T(!new)>(s: seq<T>, le: (T, T) -> bool, f: T -> bool)
    requires forall x, y | f(x) && f(y) :: le(x, y)
    ensures Filter(Sort(s, le), f) == Filter(s, f)
  {
    if s != [] {
      SortStable(s[1..], le, f);
      InsertFirst(s[0], Sort(s[1..], le), le, f);
      FilterCons(s[0], s[1..], f);
      assert s == [s[0]] + s[1..];
    }
  }

  lemma {:induction false} GatherMembers<S(!new), T(!new)>(xs: seq<S>, at: S -> seq<T>, y: T)
    ensures y in Gather(xs, at) <==> exists x :: x in xs && y in at(x)
  {
    if xs != [] {
      GatherMembers(xs[..|xs| - 1], at, y);
      assert xs == xs[..|xs| - 1] + [xs[|xs| - 1]];
    }
  }
}
