/** What fails a conformance run, said over the observations of both sides and the places of their
    documents. */
module ConformanceFailures {
  import opened Conformance
  import opened DiffPlaces
  import opened Json
  import opened KeyOrder
  import RunDiff
  import opened Sorting
  import opened SortingLaws
  import opened Text
  import opened TreeDiff

  /** The path is listed, or lies below a listed one: a dot or a bracket follows. */
  ghost predicate Covered(path: string, listed: set<string>) {
    exists p :: p in listed
                && (path == p
                    || (|p| < |path| && path[..|p|] == p && (path[|p|] == '.' || path[|p|] == '[')))
  }

  lemma ToleratedIff(path: string, listed: set<string>)
    ensures Tolerated(path, listed) <==> Covered(path, listed)
  {
    if Tolerated(path, listed) && path !in listed {
      var p :| p in listed && (p + "." <= path || p + "[" <= path);
      BelowIff(path, p, '.');
      BelowIff(path, p, '[');
    }
    if Covered(path, listed) && path !in listed {
      var p :| p in listed && |p| < |path| && path[..|p|] == p && (path[|p|] == '.' || path[|p|] == '[');
      BelowIff(path, p, path[|p|]);
    }
  }

  lemma BelowIff(path: string, p: string, c: char)
    ensures p + [c] <= path <==> |p| < |path| && path[..|p|] == p && path[|p|] == c
  {
    if p + [c] <= path {
      assert path[..|p| + 1] == p + [c];
      assert path[..|p|] == path[..|p| + 1][..|p|];
    }
  }

  /** The two documents part at a place that is written so. */
  ghost predicate PartAt(x: Observation, y: Observation, path: string) {
    exists c :: Parts(x.document, y.document, c) && path == Written("", "", c)
  }

  /** What a failure says, and that it is the case: a simulated observation that the real side does not
      have, a real one that the simulation does not have, or a place where two observations of one key
      part and which is not tolerated. */
  ghost predicate Fails(
    actual: map<string, Observation>, simulated: map<string, Observation>, tolerance: string -> set<string>,
    key: string, f: Failure)
  {
    match f.code
    case ExtraInteraction =>
      key in simulated && key !in actual && f == Failure(ExtraInteraction, "", simulated[key].id, "")
    case MissingInteraction =>
      key in actual && key !in simulated && f == Failure(MissingInteraction, actual[key].id, "", "")
    case FieldMismatch =>
      && key in actual && key in simulated && f.actual == actual[key].id && f.simulated == simulated[key].id
      && PartAt(actual[key], simulated[key], f.path) && !Covered(f.path, tolerance(actual[key].operation))
  }

  lemma ReportedIff(x: Observation, y: Observation, path: string)
    ensures path in DiffPaths(x, y) <==> PartAt(x, y, path)
  {
    DiffPathsAre(x, y, path);
    if path in DiffPaths(x, y) {
      var c := CollectedPlace("", x.document, y.document, path);
    }
    if PartAt(x, y, path) {
      var c :| Parts(x.document, y.document, c) && path == Written("", "", c);
      PlaceCollected("", x.document, y.document, c);
    }
  }

  lemma MismatchIff(x: Observation, y: Observation, listed: set<string>, f: Failure)
    ensures
      f in Map(Filter(DiffPaths(x, y), path => !Tolerated(path, listed)), MismatchAt(x, y)) <==>
      && f.code == FieldMismatch && f.actual == x.id && f.simulated == y.id
      && PartAt(x, y, f.path) && !Covered(f.path, listed)
  {
    var paths := Filter(DiffPaths(x, y), path => !Tolerated(path, listed));
    FilterIs(DiffPaths(x, y), path => !Tolerated(path, listed));
    forall path
      ensures path in paths <==> PartAt(x, y, path) && !Covered(path, listed)
    {
      ReportedIff(x, y, path);
      ToleratedIff(path, listed);
    }
    var found := Map(paths, MismatchAt(x, y));
    if f in found {
      var i :| 0 <= i < |found| && found[i] == f;
      assert paths[i] in paths;
    }
    if f.code == FieldMismatch && f.actual == x.id && f.simulated == y.id && f.path in paths {
      var i :| 0 <= i < |paths| && paths[i] == f.path;
      assert found[i] == f;
    }
  }

  lemma FailsAt(
    actual: map<string, Observation>, simulated: map<string, Observation>, tolerance: string -> set<string>,
    key: string, f: Failure)
    ensures f in FailuresAt(actual, simulated, tolerance)(key) <==> Fails(actual, simulated, tolerance, key, f)
  {
    if key in actual && key in simulated {
      MismatchIff(actual[key], simulated[key], tolerance(actual[key].operation), f);
    }
  }

  /** A failure is reported exactly if it is one of some key. */
  lemma FailureIff(
    actual: map<string, Observation>, simulated: map<string, Observation>, tolerance: string -> set<string>, f: Failure)
    ensures f in Failures(actual, simulated, tolerance) <==>
            exists key :: Fails(actual, simulated, tolerance, key, f)
  {
    var keys := Listed(actual.Keys + simulated.Keys);
    ListedAre(actual.Keys + simulated.Keys);
    GatherMembers(keys, FailuresAt(actual, simulated, tolerance), f);
    forall key
      ensures f in FailuresAt(actual, simulated, tolerance)(key) <==> Fails(actual, simulated, tolerance, key, f)
    {
      FailsAt(actual, simulated, tolerance, key, f);
    }
    if key :| Fails(actual, simulated, tolerance, key, f) {
      assert key in keys;
    }
  }

  /** A difference counts as tolerated exactly if two observations of the key part there, the path is
      covered, and it is not the id of the interaction. */
  lemma ToleratedAtIff(
    actual: map<string, Observation>, simulated: map<string, Observation>, tolerance: string -> set<string>,
    key: string, path: string)
    ensures path in ToleratedAt(actual, simulated, tolerance)(key) <==>
            && key in actual && key in simulated && PartAt(actual[key], simulated[key], path)
            && Covered(path, tolerance(actual[key].operation)) && path != "interaction_id"
  {
    if key in actual && key in simulated {
      var listed := tolerance(actual[key].operation);
      FilterIs(DiffPaths(actual[key], simulated[key]), p => Tolerated(p, listed) && p != "interaction_id");
      ReportedIff(actual[key], simulated[key], path);
      ToleratedIff(path, listed);
    }
  }

  // --------------------------------------------------------------------- order

  /** The failures come key by key, and under one key path by path. */
  ghost predicate InOrder(fs: seq<Failure>, ks: seq<string>) {
    && |ks| == |fs|
    && forall i, j | 0 <= i < j < |fs| :: StrLe(ks[i], ks[j]) && (ks[i] == ks[j] ==> StrLe(fs[i].path, fs[j].path))
  }

  lemma ListedSorted(keys: set<string>)
    ensures Sorted(Listed(keys), StrLe)
  {
    StrLePreorder();
    SortSorted(Members(keys), StrLe);
  }

  lemma {:induction false} FilterInOrder(s: seq<string>, p: string -> bool)
    requires Sorted(s, StrLe)
    ensures Sorted(Filter(s, p), StrLe)
  {
    if s != [] {
      var front, last := s[..|s| - 1], s[|s| - 1];
      FilterInOrder(front, p);
      FilterIs(front, p);
      var kept := Filter(front, p);
      forall i | 0 <= i < |kept|
        ensures StrLe(kept[i], last)
      {
        assert kept[i] in kept;
        var k :| 0 <= k < |front| && front[k] == kept[i];
        assert s[k] == front[k];
      }
    }
  }

  lemma PathsInOrder(
    actual: map<string, Observation>, simulated: map<string, Observation>, tolerance: string -> set<string>,
    key: string)
    ensures
      var fs := FailuresAt(actual, simulated, tolerance)(key);
      forall i, j | 0 <= i < j < |fs| :: StrLe(fs[i].path, fs[j].path)
  {
    if key in actual && key in simulated {
      var x, y := actual[key], simulated[key];
      StrLePreorder();
      SortSorted(CollectDiffs("", x.document, y.document), StrLe);
      FilterInOrder(DiffPaths(x, y), path => !Tolerated(path, tolerance(x.operation)));
    }
  }

  lemma {:induction false} GatherInOrder(
    keys: seq<string>, actual: map<string, Observation>, simulated: map<string, Observation>,
    tolerance: string -> set<string>) returns (ks: seq<string>)
    requires Sorted(keys, StrLe) && NoRepeats(keys)
    ensures InOrder(Gather(keys, FailuresAt(actual, simulated, tolerance)), ks)
    ensures forall i | 0 <= i < |ks| ::
              ks[i] in keys
              && Gather(keys, FailuresAt(actual, simulated, tolerance))[i]
                 in FailuresAt(actual, simulated, tolerance)(ks[i])
  {
    ks := [];
    if keys != [] {
      var front, key := keys[..|keys| - 1], keys[|keys| - 1];
      var before := GatherInOrder(front, actual, simulated, tolerance);
      var found := FailuresAt(actual, simulated, tolerance)(key);
      PathsInOrder(actual, simulated, tolerance, key);
      ks := before + seq(|found|, _ => key);
      forall i | 0 <= i < |before|
        ensures StrLe(before[i], key) && before[i] != key && before[i] in keys
      {
        var k :| 0 <= k < |front| && front[k] == before[i];
        assert keys[k] == before[i];
      }
      StrLeTotal(key, key);
    }
  }

  /** The failures are listed by key, and under one key by path. */
  lemma FailuresInOrder(
    actual: map<string, Observation>, simulated: map<string, Observation>, tolerance: string -> set<string>)
    returns (ks: seq<string>)
    ensures InOrder(Failures(actual, simulated, tolerance), ks)
    ensures forall i | 0 <= i < |ks| ::
              Fails(actual, simulated, tolerance, ks[i], Failures(actual, simulated, tolerance)[i])
  {
    var keys := Listed(actual.Keys + simulated.Keys);
    ListedAre(actual.Keys + simulated.Keys);
    ListedSorted(actual.Keys + simulated.Keys);
    ks := GatherInOrder(keys, actual, simulated, tolerance);
    forall i | 0 <= i < |ks|
      ensures Fails(actual, simulated, tolerance, ks[i], Failures(actual, simulated, tolerance)[i])
    {
      FailsAt(actual, simulated, tolerance, ks[i], Failures(actual, simulated, tolerance)[i]);
    }
  }

  // ------------------------------------------------------ observations in pairs

  /** The number of earlier observations of the side with the same base key. */
  ghost function Earlier(base: Strategy, xs: seq<Observation>, n: nat, b: string): nat
    requires n <= |xs|
  {
    var same := set k | 0 <= k < n && base(xs[k], k) == b;
    |same|
  }

  lemma {:induction false} CountIs(base: Strategy, xs: seq<Observation>, n: nat, b: string)
    requires n <= |xs|
    ensures CountBase(base, xs, n, b) == Earlier(base, xs, n, b)
  {
    if n > 0 {
      CountIs(base, xs, n - 1, b);
      OneMore(base, xs, n - 1, b);
    }
  }

  lemma OneMore(base: Strategy, xs: seq<Observation>, n: nat, b: string)
    requires n < |xs|
    ensures Earlier(base, xs, n + 1, b) == Earlier(base, xs, n, b) + if base(xs[n], n) == b then 1 else 0
  {
    var less, more := set k | 0 <= k < n && base(xs[k], k) == b, set k | 0 <= k < n + 1 && base(xs[k], k) == b;
    if base(xs[n], n) == b {
      assert more == less + {n};
    } else {
      assert more == less;
    }
  }

  /** Observations of one base key are numbered from 1. */
  lemma KeyNumbers(base: Strategy, xs: seq<Observation>, i: nat)
    requires i < |xs|
    ensures ObservedKey(base, xs, i) == base(xs[i], i) + ['\0'] + Dec(Earlier(base, xs, i, base(xs[i], i)) + 1)
  {
    CountIs(base, xs, i + 1, base(xs[i], i));
    OneMore(base, xs, i, base(xs[i], i));
  }

  /** The two are compared: their base keys are the same, and so are their places among the
      observations of that base key. */
  ghost predicate Counterparts(base: Strategy, xs: seq<Observation>, i: nat, ys: seq<Observation>, j: nat)
    requires i < |xs| && j < |ys|
  {
    && base(xs[i], i) == base(ys[j], j)
    && Earlier(base, xs, i, base(xs[i], i)) == Earlier(base, ys, j, base(xs[i], i))
  }

  lemma SameKeyIff(base: Strategy, xs: seq<Observation>, i: nat, ys: seq<Observation>, j: nat)
    requires i < |xs| && j < |ys|
    ensures ObservedKey(base, xs, i) == ObservedKey(base, ys, j) <==> Counterparts(base, xs, i, ys, j)
  {
    var b, c := base(xs[i], i), base(ys[j], j);
    CountIs(base, xs, i, b);
    CountIs(base, ys, j, c);
    if ObservedKey(base, xs, i) == ObservedKey(base, ys, j) {
      RunDiff.KeyInjective(b, CountBase(base, xs, i + 1, b), c, CountBase(base, ys, j + 1, c));
    }
  }

  /** Something of the real or the simulated side is at fault, as the failure says. */
  ghost predicate Faulty(
    base: Strategy, xs: seq<Observation>, ys: seq<Observation>, tolerance: string -> set<string>, f: Failure)
  {
    || (exists j :: 0 <= j < |ys| && f == Failure(ExtraInteraction, "", ys[j].id, "")
                    && forall i | 0 <= i < |xs| :: !Counterparts(base, xs, i, ys, j))
    || (exists i :: 0 <= i < |xs| && f == Failure(MissingInteraction, xs[i].id, "", "")
                    && forall j | 0 <= j < |ys| :: !Counterparts(base, xs, i, ys, j))
    || (f.code == FieldMismatch
        && exists i, j :: 0 <= i < |xs| && 0 <= j < |ys| && Counterparts(base, xs, i, ys, j)
                          && f.actual == xs[i].id && f.simulated == ys[j].id && PartAt(xs[i], ys[j], f.path)
                          && !Covered(f.path, tolerance(xs[i].operation)))
  }

  lemma KeyAbsentIff(base: Strategy, xs: seq<Observation>, ys: seq<Observation>, j: nat)
    requires j < |ys|
    ensures ObservedKey(base, ys, j) !in Table(base, xs) <==>
            forall i | 0 <= i < |xs| :: !Counterparts(base, xs, i, ys, j)
    ensures ObservedKey(base, ys, j) !in Table(base, xs) <==>
            forall i | 0 <= i < |xs| :: !Counterparts(base, ys, j, xs, i)
  {
    IndexedKeys(base, xs, |xs|, ObservedKey(base, ys, j));
    forall i | 0 <= i < |xs|
      ensures ObservedKey(base, xs, i) == ObservedKey(base, ys, j) <==> Counterparts(base, xs, i, ys, j)
      ensures ObservedKey(base, xs, i) == ObservedKey(base, ys, j) <==> Counterparts(base, ys, j, xs, i)
    {
      SameKeyIff(base, xs, i, ys, j);
      SameKeyIff(base, ys, j, xs, i);
    }
  }

  lemma FaultFails(
    base: Strategy, xs: seq<Observation>, ys: seq<Observation>, tolerance: string -> set<string>, f: Failure)
    requires Faulty(base, xs, ys, tolerance, f)
    ensures exists key :: Fails(Table(base, xs), Table(base, ys), tolerance, key, f)
  {
    var actual, simulated := Table(base, xs), Table(base, ys);
    TableIs(base, xs);
    TableIs(base, ys);
    if f.code == ExtraInteraction {
      var j :| 0 <= j < |ys| && f == Failure(ExtraInteraction, "", ys[j].id, "")
               && forall i | 0 <= i < |xs| :: !Counterparts(base, xs, i, ys, j);
      KeyAbsentIff(base, xs, ys, j);
      assert Fails(actual, simulated, tolerance, ObservedKey(base, ys, j), f);
    } else if f.code == MissingInteraction {
      var i :| 0 <= i < |xs| && f == Failure(MissingInteraction, xs[i].id, "", "")
               && forall j | 0 <= j < |ys| :: !Counterparts(base, xs, i, ys, j);
      KeyAbsentIff(base, ys, xs, i);
      assert Fails(actual, simulated, tolerance, ObservedKey(base, xs, i), f);
    } else {
      var i, j :| 0 <= i < |xs| && 0 <= j < |ys| && Counterparts(base, xs, i, ys, j)
                  && f.actual == xs[i].id && f.simulated == ys[j].id && PartAt(xs[i], ys[j], f.path)
                  && !Covered(f.path, tolerance(xs[i].operation));
      SameKeyIff(base, xs, i, ys, j);
      assert Fails(actual, simulated, tolerance, ObservedKey(base, xs, i), f);
    }
  }

  lemma FailureIsFault(
    base: Strategy, xs: seq<Observation>, ys: seq<Observation>, tolerance: string -> set<string>, key: string, f: Failure)
    requires Fails(Table(base, xs), Table(base, ys), tolerance, key, f)
    ensures Faulty(base, xs, ys, tolerance, f)
  {
    TableIs(base, xs);
    TableIs(base, ys);
    IndexedKeys(base, xs, |xs|, key);
    IndexedKeys(base, ys, |ys|, key);
    if f.code == ExtraInteraction {
      var j :| 0 <= j < |ys| && ObservedKey(base, ys, j) == key;
      KeyAbsentIff(base, xs, ys, j);
    } else if f.code == MissingInteraction {
      var i :| 0 <= i < |xs| && ObservedKey(base, xs, i) == key;
      KeyAbsentIff(base, ys, xs, i);
    } else {
      var i :| 0 <= i < |xs| && ObservedKey(base, xs, i) == key;
      var j :| 0 <= j < |ys| && ObservedKey(base, ys, j) == key;
      SameKeyIff(base, xs, i, ys, j);
    }
  }

  /** The comparison of two sides reports a failure exactly if something is at fault as it says. */
  lemma FaultIff(
    base: Strategy, xs: seq<Observation>, ys: seq<Observation>, tolerance: string -> set<string>, f: Failure)
    ensures f in Failures(Table(base, xs), Table(base, ys), tolerance) <==> Faulty(base, xs, ys, tolerance, f)
  {
    FailureIff(Table(base, xs), Table(base, ys), tolerance, f);
    if Faulty(base, xs, ys, tolerance, f) {
      FaultFails(base, xs, ys, tolerance, f);
    }
    if key :| Fails(Table(base, xs), Table(base, ys), tolerance, key, f) {
      FailureIsFault(base, xs, ys, tolerance, key, f);
    }
  }

  ghost function Paired(base: Strategy, xs: seq<Observation>, ys: seq<Observation>): set<nat> {
    set i | 0 <= i < |xs| && HasCounterpart(base, xs, i, ys)
  }

  ghost predicate HasCounterpart(base: Strategy, xs: seq<Observation>, i: nat, ys: seq<Observation>)
    requires i < |xs|
  {
    exists j :: 0 <= j < |ys| && Counterparts(base, xs, i, ys, j)
  }

  /** The keys of both sides stand for the observations of one side that have a counterpart. */
  lemma MatchedAre(base: Strategy, xs: seq<Observation>, ys: seq<Observation>)
    ensures |Table(base, xs).Keys * Table(base, ys).Keys|
            == |Paired(base, xs, ys)|
  {
    var paired := Paired(base, xs, ys);
    var keys := Table(base, xs).Keys * Table(base, ys).Keys;
    forall i | 0 <= i < |xs|
      ensures ObservedKey(base, xs, i) in keys <==> i in paired
    {
      TableIs(base, xs);
      KeyAbsentIff(base, ys, xs, i);
    }
    forall key
      ensures key in keys <==> exists i :: i in paired && ObservedKey(base, xs, i) == key
    {
      IndexedKeys(base, xs, |xs|, key);
    }
    SameSize(base, xs, paired, keys);
  }

  lemma {:induction false} SameSize(base: Strategy, xs: seq<Observation>, some: set<nat>, keys: set<string>)
    requires forall i | i in some :: i < |xs|
    requires forall key :: key in keys <==> exists i :: i in some && ObservedKey(base, xs, i) == key
    ensures |some| == |keys|
    decreases some
  {
    if i :| i in some {
      var fewer := keys - {ObservedKey(base, xs, i)};
      forall k | k in some - {i}
        ensures ObservedKey(base, xs, k) != ObservedKey(base, xs, i)
      {
        ObservedKeysDiffer(base, xs, if i < k then i else k, if i < k then k else i);
      }
      forall key
        ensures key in fewer <==> exists k :: k in some - {i} && ObservedKey(base, xs, k) == key
      {
      }
      SameSize(base, xs, some - {i}, fewer);
    } else {
      assert keys == {};
    }
  }
}
