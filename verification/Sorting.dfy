/** Sequences as collections.  Stable insertion into an ordered sequence is what sort.SliceStable,
    slices.SortFunc and a SQL ORDER BY do; without ties the result is unique. */
module Sorting {

  ghost predicate Preorder<T(!new)>(le: (T, T) -> bool) {
    && (forall x, y :: le(x, y) || le(y, x))
    && (forall x, y, z :: le(x, y) && le(y, z) ==> le(x, z))
  }

  ghost predicate Sorted<T>(s: seq<T>, le: (T, T) -> bool) {
    forall i, j | 0 <= i < j < |s| :: le(s[i], s[j])
  }

  /** No two distinct members of s tie. */
  ghost predicate NoTies<T>(s: seq<T>, le: (T, T) -> bool) {
    forall i, j | 0 <= i < |s| && 0 <= j < |s| && le(s[i], s[j]) && le(s[j], s[i]) :: s[i] == s[j]
  }

  // x goes before the first element it does not exceed, so equal elements keep their order
  function Insert<T>(x: T, s: seq<T>, le: (T, T) -> bool): (r: seq<T>) {
    if s == [] then [x]
    else if le(x, s[0]) then [x] + s
    else [s[0]] + Insert(x, s[1..], le)
  }

  function Sort<T>(s: seq<T>, le: (T, T) -> bool): (r: seq<T>) {
    if s == [] then [] else Insert(s[0], Sort(s[1..], le), le)
  }

  lemma {:induction false} InsertKeeps<T(!new)>(x: T, s: seq<T>, le: (T, T) -> bool)
    ensures multiset(Insert(x, s, le)) == multiset(s) + multiset{x}
    ensures |Insert(x, s, le)| == |s| + 1
  {
    if s != [] {
      InsertKeeps(x, s[1..], le);
      assert s == [s[0]] + s[1..];
    }
  }

  lemma {:induction false} InsertSorted<T(!new)>(x: T, s: seq<T>, le: (T, T) -> bool)
    requires Preorder(le) && Sorted(s, le)
    ensures Sorted(Insert(x, s, le), le)
  {
    if s != [] && !le(x, s[0]) {
      var rest := Insert(x, s[1..], le);
      InsertSorted(x, s[1..], le);
      InsertKeeps(x, s[1..], le);
      forall j | 0 <= j < |rest|
        ensures le(s[0], rest[j])
      {
        assert rest[j] in multiset(rest);
        assert rest[j] == x || rest[j] in s[1..];
      }
    }
  }

  lemma {:induction false} SortKeeps<T(!new)>(s: seq<T>, le: (T, T) -> bool)
    ensures multiset(Sort(s, le)) == multiset(s)
    ensures |Sort(s, le)| == |s|
  {
    if s != [] {
      SortKeeps(s[1..], le);
      InsertKeeps(s[0], Sort(s[1..], le), le);
      assert s == [s[0]] + s[1..];
    }
  }

  lemma {:induction false} SortSorted<T(!new)>(s: seq<T>, le: (T, T) -> bool)
    requires Preorder(le)
    ensures Sorted(Sort(s, le), le)
  {
    if s != [] {
      SortSorted(s[1..], le);
      InsertSorted(s[0], Sort(s[1..], le), le);
    }
  }

  lemma DropFirst<T(!new)>(s: seq<T>)
    requires s != []
    ensures multiset(s[1..]) == multiset(s) - multiset{s[0]}
    ensures |multiset(s)| == |s|
  {
    assert s == [s[0]] + s[1..];
  }

  /** Two ordered arrangements of one collection start with the same element. */
  lemma SameHead<T(!new)>(s: seq<T>, t: seq<T>, le: (T, T) -> bool)
    requires Preorder(le) && Sorted(s, le) && Sorted(t, le)
    requires multiset(s) == multiset(t) && NoTies(s, le) && s != [] && t != []
    ensures s[0] == t[0]
  {
    assert s[0] in multiset(t) && t[0] in multiset(s);
    var i :| 0 <= i < |t| && t[i] == s[0];
    var j :| 0 <= j < |s| && s[j] == t[0];
    assert le(s[0], s[j]) && le(t[0], t[i]);
  }

  lemma TailOrdered<T(!new)>(s: seq<T>, le: (T, T) -> bool)
    requires Sorted(s, le) && NoTies(s, le) && s != []
    ensures Sorted(s[1..], le) && NoTies(s[1..], le)
  {
  }

  lemma SameTail<T(!new)>(s: seq<T>, t: seq<T>)
    requires multiset(s) == multiset(t) && s != [] && t != [] && s[0] == t[0]
    ensures multiset(s[1..]) == multiset(t[1..])
  {
    DropFirst(s);
    DropFirst(t);
  }

  /** Without ties the order of the elements is determined by their collection alone. */
  lemma {:induction false} SortedUnique<T(!new)>(s: seq<T>, t: seq<T>, le: (T, T) -> bool)
    requires Preorder(le) && Sorted(s, le) && Sorted(t, le)
    requires multiset(s) == multiset(t)
    requires NoTies(s, le)
    ensures s == t
    decreases |s|
  {
    assert |multiset(s)| == |s| && |multiset(t)| == |t|;
    if s != [] {
      SameHead(s, t, le);
      SameTail(s, t);
      TailOrdered(s, le);
      SortedUnique(s[1..], t[1..], le);
      assert s == [s[0]] + s[1..] && t == [t[0]] + t[1..];
    }
  }

  /** Sorting forgets the input order when no two elements tie. */
  lemma SortPermutation<T(!new)>(s: seq<T>, t: seq<T>, le: (T, T) -> bool)
    requires Preorder(le) && NoTies(s, le)
    requires multiset(s) == multiset(t)
    ensures Sort(s, le) == Sort(t, le)
  {
    SortKeeps(s, le);
    SortKeeps(t, le);
    SortSorted(s, le);
    SortSorted(t, le);
    var r := Sort(s, le);
    forall i, j | 0 <= i < |r| && 0 <= j < |r| && le(r[i], r[j]) && le(r[j], r[i])
      ensures r[i] == r[j]
    {
      assert r[i] in multiset(s) && r[j] in multiset(s);
    }
    SortedUnique(Sort(s, le), Sort(t, le), le);
  }

  /** Equal collections have the same members. */
  lemma MultisetMembers<T(!new)>(s: seq<T>, t: seq<T>)
    requires multiset(s) == multiset(t)
    ensures |s| == |t|
    ensures forall x :: x in s <==> x in t
  {
    assert |multiset(s)| == |s| && |multiset(t)| == |t|;
    forall x
      ensures x in s <==> x in t
    {
      assert x in s <==> x in multiset(s);
      assert x in t <==> x in multiset(t);
    }
  }

  /** The members of a set in some order: what ranging over a map yields. */
  ghost function Members<T>(s: set<T>): seq<T> {
    if s == {} then [] else var x :| x in s; [x] + Members(s - {x})
  }

  lemma {:induction false} MembersAre<T(!new)>(s: set<T>)
    ensures multiset(Members(s)) == multiset(s)
  {
    if s != {} {
      var x :| x in s && Members(s) == [x] + Members(s - {x});
      MembersAre(s - {x});
      assert multiset(s) == multiset(s - {x}) + multiset{x};
    }
  }

  lemma TwiceCounts<T(!new)>(s: seq<T>, i: nat, j: nat)
    requires i < j < |s| && s[i] == s[j]
    ensures multiset(s)[s[i]] >= 2
  {
    var pre, suf := s[..j], s[j..];
    assert s == pre + suf && pre[i] == s[i] && suf[0] == s[i];
    assert multiset(s)[s[i]] == multiset(pre)[s[i]] + multiset(suf)[s[i]];
  }

  ghost predicate NoRepeats<T(!new)>(s: seq<T>) {
    forall i, j | 0 <= i < j < |s| :: s[i] != s[j]
  }

  lemma Joined<T(!new)>(s: seq<T>, t: seq<T>)
    requires NoRepeats(s) && NoRepeats(t) && forall x | x in t :: x !in s
    ensures NoRepeats(s + t)
  {
    forall i, j | 0 <= i < j < |s + t|
      ensures (s + t)[i] != (s + t)[j]
    {
      if i < |s| <= j {
        assert t[j - |s|] in t;
      }
    }
  }

  lemma {:induction false} AtMostOnce<T(!new)>(s: seq<T>, x: T)
    requires NoRepeats(s)
    ensures multiset(s)[x] <= 1
  {
    if s != [] {
      AtMostOnce(s[1..], x);
      assert s == [s[0]] + s[1..];
      if s[0] == x {
        forall j | 0 <= j < |s[1..]|
          ensures s[1..][j] != x
        {
          assert s[0] != s[j + 1];
        }
        assert x !in s[1..];
      }
    }
  }

  /** Repetition-free sequences with the same members are rearrangements of each other. */
  lemma SameMembers<T(!new)>(s: seq<T>, r: seq<T>)
    requires NoRepeats(s) && NoRepeats(r)
    requires forall x :: x in s <==> x in r
    ensures multiset(s) == multiset(r)
  {
    forall x
      ensures multiset(s)[x] == multiset(r)[x]
    {
      AtMostOnce(s, x);
      AtMostOnce(r, x);
      assert x in s <==> x in multiset(s);
      assert x in r <==> x in multiset(r);
    }
  }

  function Map<S, T>(s: seq<S>, f: S -> T): seq<T> {
    seq(|s|, i requires 0 <= i < |s| => f(s[i]))
  }

  /** Sorting keys by what they stand for is sorting what they stand for. */
  lemma {:induction false} MapSort<S(!new), T(!new)>(s: seq<S>, f: S -> T, le1: (S, S) -> bool, le2: (T, T) -> bool)
    requires forall x, y :: le1(x, y) <==> le2(f(x), f(y))
    ensures Map(Sort(s, le1), f) == Sort(Map(s, f), le2)
  {
    if s != [] {
      MapSort(s[1..], f, le1, le2);
      MapInsert(s[0], Sort(s[1..], le1), f, le1, le2);
      assert Map(s, f)[1..] == Map(s[1..], f);
    }
  }

  lemma {:induction false} MapInsert<S(!new), T(!new)>(
    x: S, s: seq<S>, f: S -> T, le1: (S, S) -> bool, le2: (T, T) -> bool)
    requires forall y, z :: le1(y, z) <==> le2(f(y), f(z))
    ensures Map(Insert(x, s, le1), f) == Insert(f(x), Map(s, f), le2)
  {
    if s != [] {
      assert Map(s, f)[1..] == Map(s[1..], f);
      if le1(x, s[0]) {
        assert Map([x] + s, f) == [f(x)] + Map(s, f);
      } else {
        MapInsert(x, s[1..], f, le1, le2);
        assert Map([s[0]] + Insert(x, s[1..], le1), f) == [f(s[0])] + Map(Insert(x, s[1..], le1), f);
      }
    }
  }

  lemma MultisetSplit<T(!new)>(t: seq<T>, j: nat)
    requires j < |t|
    ensures t == t[..j] + [t[j]] + t[j + 1..]
    ensures multiset(t[..j] + t[j + 1..]) == multiset(t) - multiset{t[j]}
  {
    assert t == t[..j] + [t[j]] + t[j + 1..];
    assert multiset(t) == multiset(t[..j]) + multiset{t[j]} + multiset(t[j + 1..]);
  }

  /** Where the first element of s is in a rearrangement t of s. */
  lemma FindHead<T(!new)>(s: seq<T>, t: seq<T>) returns (j: nat)
    requires multiset(s) == multiset(t) && s != []
    ensures j < |t| && t[j] == s[0] && t == t[..j] + [s[0]] + t[j + 1..]
    ensures multiset(s[1..]) == multiset(t[..j] + t[j + 1..])
  {
    MultisetMembers(s, t);
    assert s[0] in t;
    j :| 0 <= j < |t| && t[j] == s[0];
    DropFirst(s);
    MultisetSplit(t, j);
  }

  lemma {:induction false} MapPermute<S(!new), T(!new)>(s: seq<S>, t: seq<S>, f: S -> T)
    requires multiset(s) == multiset(t)
    ensures multiset(Map(s, f)) == multiset(Map(t, f))
    decreases |s|
  {
    if s != [] {
      var j := FindHead(s, t);
      MapPermute(s[1..], t[..j] + t[j + 1..], f);
      assert Map(s, f) == [f(s[0])] + Map(s[1..], f);
      assert Map(t, f) == Map(t[..j], f) + [f(s[0])] + Map(t[j + 1..], f);
      assert Map(t[..j] + t[j + 1..], f) == Map(t[..j], f) + Map(t[j + 1..], f);
    } else {
      MultisetMembers(s, t);
      assert Map(s, f) == [] && Map(t, f) == [];
    }
  }

  /** The values of f at 1, ..., n. */
  ghost function Values<T>(f: nat -> T, n: nat): set<T> {
    if n == 0 then {} else Values(f, n - 1) + {f(n)}
  }

  lemma {:induction false} ValuesAre<T(!new)>(f: nat -> T, n: nat, x: T)
    ensures x in Values(f, n) <==> exists m: nat :: 1 <= m <= n && x == f(m)
  {
    if n > 0 {
      ValuesAre(f, n - 1, x);
      if x in Values(f, n - 1) {
        var m: nat :| 1 <= m <= n - 1 && x == f(m);
        assert 1 <= m <= n;
      }
    }
  }

  /** n different values are n members. */
  lemma {:induction false} ValuesSize<T(!new)>(f: nat -> T, n: nat)
    requires forall i: nat, j: nat | 1 <= i < j <= n :: f(i) != f(j)
    ensures |Values(f, n)| == n
  {
    if n > 0 {
      ValuesSize(f, n - 1);
      ValuesAre(f, n - 1, f(n));
    }
  }

  function Filter<T>(xs: seq<T>, f: T -> bool): seq<T> {
    if xs == [] then []
    else Filter(xs[..|xs| - 1], f) + if f(xs[|xs| - 1]) then [xs[|xs| - 1]] else []
  }

  lemma {:induction false} FilterIs<T(!new)>(xs: seq<T>, f: T -> bool)
    ensures forall x :: x in Filter(xs, f) <==> x in xs && f(x)
  {
    if xs != [] {
      FilterIs(xs[..|xs| - 1], f);
      assert xs == xs[..|xs| - 1] + [xs[|xs| - 1]];
    }
  }

  lemma {:induction false} FilterSame<T(!new)>(xs: seq<T>, f: T -> bool, g: T -> bool)
    requires forall x :: f(x) == g(x)
    ensures Filter(xs, f) == Filter(xs, g)
  {
    if xs != [] {
      FilterSame(xs[..|xs| - 1], f, g);
    }
  }

  lemma {:induction false} FilterSorted<T(!new)>(xs: seq<T>, f: T -> bool, le: (T, T) -> bool)
    requires NoRepeats(xs) && Sorted(xs, le)
    ensures NoRepeats(Filter(xs, f)) && Sorted(Filter(xs, f), le)
  {
    if xs != [] {
      var front, last := xs[..|xs| - 1], xs[|xs| - 1];
      FilterSorted(front, f, le);
      FilterIs(front, f);
      var kept := Filter(front, f);
      forall i | 0 <= i < |kept|
        ensures kept[i] != last && le(kept[i], last)
      {
        assert kept[i] in front;
        var k :| 0 <= k < |front| && front[k] == kept[i];
        assert xs[k] != xs[|xs| - 1] && le(xs[k], xs[|xs| - 1]);
      }
    }
  }

  lemma {:induction false} FilterNone<T(!new)>(xs: seq<T>, f: T -> bool)
    requires forall x :: !f(x)
    ensures Filter(xs, f) == []
  {
    if xs != [] {
      FilterNone(xs[..|xs| - 1], f);
    }
  }

  lemma FilterSnoc<T(!new)>(xs: seq<T>, x: T, f: T -> bool)
    ensures Filter(xs + [x], f) == Filter(xs, f) + if f(x) then [x] else []
  {
    assert (xs + [x])[..|xs|] == xs;
  }

  /** Rearrangements keep the same members. */
  lemma FilterMembers<T(!new)>(xs: seq<T>, ys: seq<T>, f: T -> bool)
    requires multiset(xs) == multiset(ys)
    ensures forall x :: x in Filter(xs, f) <==> x in Filter(ys, f)
  {
    MultisetMembers(xs, ys);
    FilterIs(xs, f);
    FilterIs(ys, f);
  }

  /** What f makes of each element, in order. */
  function Gather<S, T>(xs: seq<S>, f: S -> seq<T>): seq<T> {
    if xs == [] then [] else Gather(xs[..|xs| - 1], f) + f(xs[|xs| - 1])
  }

  lemma {:induction false} GatherEmpty<S(!new), T(!new)>(xs: seq<S>, f: S -> seq<T>)
    ensures Gather(xs, f) == [] <==> forall x | x in xs :: f(x) == []
  {
    if xs != [] {
      GatherEmpty(xs[..|xs| - 1], f);
      assert xs == xs[..|xs| - 1] + [xs[|xs| - 1]];
    }
  }

  lemma {:induction false} GatherSame<S(!new), T(!new)>(xs: seq<S>, f: S -> seq<T>, g: S -> seq<T>)
    requires forall x :: f(x) == g(x)
    ensures Gather(xs, f) == Gather(xs, g)
  {
    if xs != [] {
      GatherSame(xs[..|xs| - 1], f, g);
    }
  }

  /** Filtering rearrangements gives rearrangements. */
  lemma {:induction false} FilterPermutes<T(!new)>(xs: seq<T>, ys: seq<T>, f: T -> bool)
    requires multiset(xs) == multiset(ys)
    ensures multiset(Filter(xs, f)) == multiset(Filter(ys, f))
  {
    forall x
      ensures multiset(Filter(xs, f))[x] == multiset(Filter(ys, f))[x]
    {
      FilterCount(xs, f, x);
      FilterCount(ys, f, x);
    }
  }

  lemma {:induction false} FilterCount<T(!new)>(xs: seq<T>, f: T -> bool, x: T)
    ensures multiset(Filter(xs, f))[x] == if f(x) then multiset(xs)[x] else 0
  {
    if xs != [] {
      FilterCount(xs[..|xs| - 1], f, x);
      assert xs == xs[..|xs| - 1] + [xs[|xs| - 1]];
    }
  }

  /** What holds of the empty sequence and survives appending holds of every sequence. */
  lemma {:induction false} PrefixInduction<T(!new)>(s: seq<T>, p: seq<T> -> bool)
    requires p([]) && forall prefix, x | p(prefix) :: p(prefix + [x])
    ensures p(s)
  {
    if s != [] {
      PrefixInduction(s[..|s| - 1], p);
      assert s == s[..|s| - 1] + [s[|s| - 1]];
    }
  }
}
