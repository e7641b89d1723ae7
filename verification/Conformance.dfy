/** Conformance: what a simulator was observed to do against what the real service did.  Observations
    are numbered per base key, equal keys are compared, and differences at tolerated paths are set
    aside.  `base` is the matching strategy: a key for an observation at a position. */
module Conformance {
  import opened Json
  import opened KeyOrder
  import opened RunDiff
  import opened Sorting
  import opened Text
  import opened TreeDiff

  datatype Observation = Observation(id: string, step: string, operation: string, document: Json)

  type Strategy = (Observation, nat) -> string

  datatype Code = ExtraInteraction | MissingInteraction | FieldMismatch

  datatype Failure = Failure(code: Code, actual: string, simulated: string, path: string)

  datatype Summary = Summary(matched: nat, missing: nat, extra: nat, tolerated: nat, failing: nat)

  // ------------------------------------------------------------- numbering

  function CountBase(base: Strategy, xs: seq<Observation>, n: nat, b: string): nat
    requires n <= |xs|
  {
    if n == 0 then 0 else CountBase(base, xs, n - 1, b) + if base(xs[n - 1], n - 1) == b then 1 else 0
  }

  function ObservedKey(base: Strategy, xs: seq<Observation>, i: nat): string
    requires i < |xs|
  {
    OccurrenceKey(base(xs[i], i), CountBase(base, xs, i + 1, base(xs[i], i)))
  }

  lemma {:induction false} CountBaseGrows(base: Strategy, xs: seq<Observation>, m: nat, n: nat, b: string)
    requires m <= n <= |xs|
    ensures CountBase(base, xs, m, b) <= CountBase(base, xs, n, b)
  {
    if m < n {
      CountBaseGrows(base, xs, m, n - 1, b);
    }
  }

  /** No two observations of a side get the same key. */
  lemma ObservedKeysDiffer(base: Strategy, xs: seq<Observation>, i: nat, j: nat)
    requires i < j < |xs|
    ensures ObservedKey(base, xs, i) != ObservedKey(base, xs, j)
  {
    if ObservedKey(base, xs, i) == ObservedKey(base, xs, j) {
      var b := base(xs[j], j);
      KeyInjective(base(xs[i], i), CountBase(base, xs, i + 1, base(xs[i], i)), b, CountBase(base, xs, j + 1, b));
      CountBaseGrows(base, xs, i + 1, j, b);
    }
  }

  /** The table of a side after its first n observations. */
  function Indexed(base: Strategy, xs: seq<Observation>, n: nat): map<string, Observation>
    requires n <= |xs|
  {
    if n == 0 then map[] else Indexed(base, xs, n - 1)[ObservedKey(base, xs, n - 1) := xs[n - 1]]
  }

  function Table(base: Strategy, xs: seq<Observation>): map<string, Observation> {
    Indexed(base, xs, |xs|)
  }

  lemma {:induction false} IndexedKeys(base: Strategy, xs: seq<Observation>, n: nat, k: string)
    requires n <= |xs|
    ensures k in Indexed(base, xs, n) <==> exists i :: 0 <= i < n && ObservedKey(base, xs, i) == k
  {
    if n > 0 {
      IndexedKeys(base, xs, n - 1, k);
    }
  }

  lemma NewKey(base: Strategy, xs: seq<Observation>, n: nat)
    requires n < |xs|
    ensures ObservedKey(base, xs, n) !in Indexed(base, xs, n)
  {
    IndexedKeys(base, xs, n, ObservedKey(base, xs, n));
    forall i | 0 <= i < n
      ensures ObservedKey(base, xs, i) != ObservedKey(base, xs, n)
    {
      ObservedKeysDiffer(base, xs, i, n);
    }
  }

  lemma {:induction false} IndexedSize(base: Strategy, xs: seq<Observation>, n: nat)
    requires n <= |xs|
    ensures |Indexed(base, xs, n)| == n
  {
    if n > 0 {
      IndexedSize(base, xs, n - 1);
      NewKey(base, xs, n - 1);
    }
  }

  lemma {:induction false} IndexedAt(base: Strategy, xs: seq<Observation>, n: nat, i: nat)
    requires i < n <= |xs|
    ensures ObservedKey(base, xs, i) in Indexed(base, xs, n) && Indexed(base, xs, n)[ObservedKey(base, xs, i)] == xs[i]
  {
    if i < n - 1 {
      IndexedAt(base, xs, n - 1, i);
      NewKey(base, xs, n - 1);
    }
  }

  /** Indexing loses no observation: each is found under its own key, and there are no other keys. */
  lemma TableIs(base: Strategy, xs: seq<Observation>)
    ensures |Table(base, xs)| == |xs|
    ensures forall i | 0 <= i < |xs| :: ObservedKey(base, xs, i) in Table(base, xs) &&
                                        Table(base, xs)[ObservedKey(base, xs, i)] == xs[i]
  {
    IndexedSize(base, xs, |xs|);
    forall i | 0 <= i < |xs|
      ensures ObservedKey(base, xs, i) in Table(base, xs) && Table(base, xs)[ObservedKey(base, xs, i)] == xs[i]
    {
      IndexedAt(base, xs, |xs|, i);
    }
  }

  // ------------------------------------------------------------ comparison

  predicate Tolerated(path: string, paths: set<string>) {
    path in paths || exists p :: p in paths && (p + "." <= path || p + "[" <= path)
  }

  ghost function DiffPaths(actual: Observation, simulated: Observation): seq<string> {
    Sort(CollectDiffs("", actual.document, simulated.document), StrLe)
  }

  function MismatchAt(actual: Observation, simulated: Observation): string -> Failure {
    (path: string) => Failure(FieldMismatch, actual.id, simulated.id, path)
  }

  /** The failures under one key; `tolerance` gives the tolerated paths of an operation. */
  ghost function FailuresAt(
    actual: map<string, Observation>, simulated: map<string, Observation>, tolerance: string -> set<string>)
    : string -> seq<Failure>
  {
    key =>
      if key !in actual then
        if key in simulated then [Failure(ExtraInteraction, "", simulated[key].id, "")] else []
      else if key !in simulated then [Failure(MissingInteraction, actual[key].id, "", "")]
      else
        var tolerated := tolerance(actual[key].operation);
        Map(Filter(DiffPaths(actual[key], simulated[key]), path => !Tolerated(path, tolerated)),
            MismatchAt(actual[key], simulated[key]))
  }

  ghost function Failures(
    actual: map<string, Observation>, simulated: map<string, Observation>, tolerance: string -> set<string>)
    : seq<Failure>
  {
    Gather(Listed(actual.Keys + simulated.Keys), FailuresAt(actual, simulated, tolerance))
  }

  /** The tolerated differences under one key; the id of an interaction is always tolerated and is
      not one of them. */
  ghost function ToleratedAt(
    actual: map<string, Observation>, simulated: map<string, Observation>, tolerance: string -> set<string>)
    : string -> seq<string>
  {
    key =>
      if key in actual && key in simulated then
        Accepted(DiffPaths(actual[key], simulated[key]), tolerance(actual[key].operation))
      else []
  }

  function Accepted(paths: seq<string>, tolerated: set<string>): seq<string> {
    Filter(paths, path => Tolerated(path, tolerated) && path != "interaction_id")
  }

  ghost function Tolerances(
    actual: map<string, Observation>, simulated: map<string, Observation>, tolerance: string -> set<string>)
    : seq<string>
  {
    Gather(Listed(actual.Keys + simulated.Keys), ToleratedAt(actual, simulated, tolerance))
  }

  /** Everything that differs between the two is tolerated for the operation. */
  ghost predicate Conforms(actual: Observation, simulated: Observation, tolerance: string -> set<string>) {
    forall path | path in CollectDiffs("", actual.document, simulated.document) ::
      Tolerated(path, tolerance(actual.operation))
  }

  lemma DiffPathsAre(actual: Observation, simulated: Observation, path: string)
    ensures path in DiffPaths(actual, simulated) <==> path in CollectDiffs("", actual.document, simulated.document)
  {
    SortKeeps(CollectDiffs("", actual.document, simulated.document), StrLe);
    MultisetMembers(DiffPaths(actual, simulated), CollectDiffs("", actual.document, simulated.document));
  }

  lemma MatchedConforms(actual: Observation, simulated: Observation, tolerance: string -> set<string>)
    ensures Filter(DiffPaths(actual, simulated), path => !Tolerated(path, tolerance(actual.operation))) == [] <==>
            Conforms(actual, simulated, tolerance)
  {
    var paths := DiffPaths(actual, simulated);
    var failing := Filter(paths, path => !Tolerated(path, tolerance(actual.operation)));
    FilterIs(paths, path => !Tolerated(path, tolerance(actual.operation)));
    forall path
      ensures path in failing <==>
              && path in CollectDiffs("", actual.document, simulated.document)
              && !Tolerated(path, tolerance(actual.operation))
    {
      DiffPathsAre(actual, simulated, path);
    }
    if failing != [] {
      assert failing[0] in failing;
    }
  }

  /** Nothing fails exactly if both sides have the same keys and every pair conforms. */
  lemma NoFailuresIff(
    actual: map<string, Observation>, simulated: map<string, Observation>, tolerance: string -> set<string>)
    ensures Failures(actual, simulated, tolerance) == [] <==>
            && actual.Keys == simulated.Keys
            && forall key | key in actual && key in simulated :: Conforms(actual[key], simulated[key], tolerance)
  {
    var keys := Listed(actual.Keys + simulated.Keys);
    ListedAre(actual.Keys + simulated.Keys);
    GatherEmpty(keys, FailuresAt(actual, simulated, tolerance));
    forall key
      ensures FailuresAt(actual, simulated, tolerance)(key) == [] <==>
              && (key in actual <==> key in simulated)
              && (key in actual && key in simulated ==> Conforms(actual[key], simulated[key], tolerance))
    {
      if key in actual && key in simulated {
        MatchedConforms(actual[key], simulated[key], tolerance);
      }
    }
    if forall key | key in keys :: FailuresAt(actual, simulated, tolerance)(key) == [] {
      forall key
        ensures key in actual.Keys <==> key in simulated.Keys
      {
        assert key in keys <==> key in actual || key in simulated;
      }
    }
  }

  /** Observations compared with themselves never fail. */
  lemma SelfConforms(base: Strategy, xs: seq<Observation>, tolerance: string -> set<string>)
    ensures Failures(Table(base, xs), Table(base, xs), tolerance) == []
  {
    var t := Table(base, xs);
    forall key | key in t
      ensures Conforms(t[key], t[key], tolerance)
    {
      assert CollectDiffs("", t[key].document, t[key].document) == [];
    }
    NoFailuresIff(t, t, tolerance);
  }

  // ----------------------------------------------------------------- loops

  method IndexObservations(base: Strategy, xs: seq<Observation>) returns (indexed: map<string, Observation>)
    ensures indexed == Table(base, xs)
  {
    var counts: map<string, nat> := map[];
    indexed := map[];
    for n := 0 to |xs|
      invariant forall b: string :: (if b in counts then counts[b] else 0) == CountBase(base, xs, n, b)
      invariant indexed == Indexed(base, xs, n)
    {
      var b := base(xs[n], n);
      counts := counts[b := 1 + if b in counts then counts[b] else 0];
      indexed := indexed[OccurrenceKey(b, counts[b]) := xs[n]];
    }
  }

  /** Splits the differing paths into failing and tolerated ones; the id of an interaction is always
      tolerated and never counted. */
  method SplitPaths(paths: seq<string>, tolerated: set<string>) returns (failing: seq<string>, accepted: seq<string>)
    ensures failing == Filter(paths, path => !Tolerated(path, tolerated))
    ensures accepted == Accepted(paths, tolerated)
    ensures "interaction_id" in tolerated ==>
              |failing| + |accepted| + |Filter(paths, p => p == "interaction_id")| == |paths|
  {
    failing, accepted := [], [];
    for n := 0 to |paths|
      invariant failing == Filter(paths[..n], path => !Tolerated(path, tolerated))
      invariant accepted == Accepted(paths[..n], tolerated)
      invariant "interaction_id" in tolerated ==>
                  |failing| + |accepted| + |Filter(paths[..n], p => p == "interaction_id")| == n
    {
      assert paths[..n + 1][..n] == paths[..n];
      if !Tolerated(paths[n], tolerated) {
        failing := failing + [paths[n]];
      } else if paths[n] != "interaction_id" {
        accepted := accepted + [paths[n]];
      }
    }
    assert paths[..|paths|] == paths;
  }

  method CompareKey(key: string, actual: map<string, Observation>, simulated: map<string, Observation>,
                    tolerance: string -> set<string>, before: Summary)
    returns (s: Summary, found: seq<Failure>)
    requires key in actual || key in simulated
    ensures found == FailuresAt(actual, simulated, tolerance)(key)
    ensures s.matched == before.matched + if key in actual && key in simulated then 1 else 0
    ensures s.missing == before.missing + if key in actual && key !in simulated then 1 else 0
    ensures s.extra == before.extra + if key !in actual then 1 else 0
    ensures s.tolerated == before.tolerated + |ToleratedAt(actual, simulated, tolerance)(key)|
    ensures s.failing == before.failing + if key in actual && key in simulated then |found| else 0
  {
    if key !in actual {
      return before.(extra := before.extra + 1), [Failure(ExtraInteraction, "", simulated[key].id, "")];
    }
    if key !in simulated {
      return before.(missing := before.missing + 1), [Failure(MissingInteraction, actual[key].id, "", "")];
    }
    var x, y := actual[key], simulated[key];
    var paths := CollectDiffPaths("", x.document, y.document, []);
    assert [] + CollectDiffs("", x.document, y.document) == CollectDiffs("", x.document, y.document);
    paths := Sort(paths, StrLe);
    assert paths == DiffPaths(x, y);
    var failing, accepted := SplitPaths(paths, tolerance(x.operation));
    found := Map(failing, MismatchAt(x, y));
    s := before.(
      matched := before.matched + 1, tolerated := before.tolerated + |accepted|,
      failing := before.failing + |found|);
  }

  /** A repetition-free list of the members of a set is as long as the set is large. */
  lemma ListSize(s: seq<string>, all: set<string>)
    requires NoRepeats(s) && forall x :: x in s <==> x in all
    ensures |s| == |all|
  {
    forall x
      ensures multiset(s)[x] == multiset(all)[x]
    {
      AtMostOnce(s, x);
      assert x in s <==> x in multiset(s);
    }
    assert multiset(s) == multiset(all);
    assert |multiset(s)| == |s| && |multiset(all)| == |all|;
  }

  lemma KeysListed(all: set<string>, part: set<string>)
    requires part <= all
    ensures |Filter(Listed(all), k => k in part)| == |part|
  {
    ListedAre(all);
    FilterIs(Listed(all), k => k in part);
    FilterSorted(Listed(all), k => k in part, (a, b) => true);
    ListSize(Filter(Listed(all), k => k in part), part);
  }

  /** The counts so far: every key of either side is matched, missing or extra, and every failure is
      a missing one, an extra one or a failing path. */
  ghost predicate Counted(
    s: Summary, keys: seq<string>, actual: set<string>, simulated: set<string>, failures: seq<Failure>)
  {
    && s.matched == |Filter(keys, k => k in actual * simulated)|
    && s.matched + s.missing == |Filter(keys, k => k in actual)|
    && s.matched + s.extra == |Filter(keys, k => k in simulated)|
    && s.missing + s.extra + s.failing == |failures|
  }

  lemma CountedNext(keys: seq<string>, key: string, actual: set<string>)
    ensures |Filter(keys + [key], k => k in actual)| == |Filter(keys, k => k in actual)| + if key in actual then 1 else 0
  {
    FilterSnoc(keys, key, k => k in actual);
  }

  method CompareKeys(keys: seq<string>, actual: map<string, Observation>, simulated: map<string, Observation>,
                     tolerance: string -> set<string>)
    returns (s: Summary, failures: seq<Failure>)
    requires forall key | key in keys :: key in actual || key in simulated
    ensures failures == Gather(keys, FailuresAt(actual, simulated, tolerance))
    ensures Counted(s, keys, actual.Keys, simulated.Keys, failures)
    ensures s.tolerated == |Gather(keys, ToleratedAt(actual, simulated, tolerance))|
  {
    s, failures := Summary(0, 0, 0, 0, 0), [];
    for n := 0 to |keys|
      invariant failures == Gather(keys[..n], FailuresAt(actual, simulated, tolerance))
      invariant Counted(s, keys[..n], actual.Keys, simulated.Keys, failures)
      invariant s.tolerated == |Gather(keys[..n], ToleratedAt(actual, simulated, tolerance))|
    {
      ghost var front := keys[..n];
      assert keys[..n + 1] == front + [keys[n]] && (front + [keys[n]])[..n] == front;
      CountedNext(front, keys[n], actual.Keys);
      CountedNext(front, keys[n], simulated.Keys);
      CountedNext(front, keys[n], actual.Keys * simulated.Keys);
      var found;
      s, found := CompareKey(keys[n], actual, simulated, tolerance, s);
      failures := failures + found;
    }
    assert keys[..|keys|] == keys;
  }

  /** Matched and missing interactions make up the real side, matched and extra ones the simulated
      side, and the failures and the tolerated differences are those of all keys in order. */
  method CompareObservations(
    base: Strategy, xs: seq<Observation>, ys: seq<Observation>, tolerance: string -> set<string>)
    returns (s: Summary, failures: seq<Failure>)
    ensures failures == Failures(Table(base, xs), Table(base, ys), tolerance)
    ensures s.matched == |Table(base, xs).Keys * Table(base, ys).Keys|
    ensures s.matched + s.missing == |xs| && s.matched + s.extra == |ys|
    ensures s.missing + s.extra + s.failing == |failures|
    ensures s.tolerated == |Tolerances(Table(base, xs), Table(base, ys), tolerance)|
  {
    var actual := IndexObservations(base, xs);
    var simulated := IndexObservations(base, ys);
    var keys := ListKeys(actual.Keys + simulated.Keys);
    ListedAre(actual.Keys + simulated.Keys);
    KeysListed(actual.Keys + simulated.Keys, actual.Keys);
    KeysListed(actual.Keys + simulated.Keys, simulated.Keys);
    KeysListed(actual.Keys + simulated.Keys, actual.Keys * simulated.Keys);
    IndexedSize(base, xs, |xs|);
    IndexedSize(base, ys, |ys|);
    s, failures := CompareKeys(keys, actual, simulated, tolerance);
    assert |actual.Keys| == |actual| && |simulated.Keys| == |simulated|;
  }
}
