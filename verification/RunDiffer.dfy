/** The loops of the run diff: numbering occurrences, pairing by key, sorting the keys and
    reporting each pair. */
module RunDiffer {
  import opened IgnorePaths
  import opened Json
  import opened Results
  import opened RunDiff
  import opened Sorting
  import opened Text

  method IdentityKey(rules: Rules, x: Interaction) returns (key: string)
    ensures key == Identity(rules, x)
  {
    var ignored := Ignored(rules, x);
    var identity := RemoveIgnoredFields(rules.identity(x, ignored), ignored);
    ListsMembers(ignored);
    key := rules.encode(identity);
  }

  method IndexInteractions(rules: Rules, xs: seq<Interaction>) returns (indexed: seq<Indexed>)
    ensures |indexed| == |Ordered(xs)|
    ensures forall i | 0 <= i < |indexed| :: indexed[i] == Indexed(KeyAt(rules, Ordered(xs), i), Ordered(xs)[i])
  {
    var ordered := Ordered(xs);
    var seen: map<string, nat> := map[];
    indexed := [];
    for n := 0 to |ordered|
      invariant forall b: string :: (if b in seen then seen[b] else 0) == Count(rules, ordered, n, b)
      invariant |indexed| == n
      invariant forall i | 0 <= i < n :: indexed[i] == Indexed(KeyAt(rules, ordered, i), ordered[i])
    {
      var b := IdentityKey(rules, ordered[n]);
      seen := seen[b := 1 + if b in seen then seen[b] else 0];
      indexed := indexed + [Indexed(OccurrenceKey(b, seen[b]), ordered[n])];
    }
  }

  function Stored(pairs: map<string, Pair>, key: string): Pair {
    if key in pairs then pairs[key] else Pair(key, None, None)
  }

  /** The table of pairs holds, under this key, what the first m interactions of the base and the
      first n of the candidate have there. */
  ghost predicate HoldsAt(rules: Rules, ob: seq<Interaction>, m: nat, oc: seq<Interaction>, n: nat,
                          pairs: map<string, Pair>, key: string)
    requires m <= |ob| && n <= |oc|
  {
    && Stored(pairs, key) == Pair(key, At(rules, ob, m, key), At(rules, oc, n, key))
    && (key in pairs <==> At(rules, ob, m, key).Some? || At(rules, oc, n, key).Some?)
  }

  ghost predicate Paired(
    rules: Rules, ob: seq<Interaction>, m: nat, oc: seq<Interaction>, n: nat, pairs: map<string, Pair>)
    requires m <= |ob| && n <= |oc|
  {
    forall key :: HoldsAt(rules, ob, m, oc, n, pairs, key)
  }

  lemma AtGrows(rules: Rules, xs: seq<Interaction>, n: nat, key: string)
    requires n < |xs|
    ensures At(rules, xs, n + 1, key) == if key == KeyAt(rules, xs, n) then Some(xs[n]) else At(rules, xs, n, key)
    ensures key == KeyAt(rules, xs, n) ==> At(rules, xs, n, key) == None
  {
    if key == KeyAt(rules, xs, n) {
      AtIs(rules, xs, n + 1, n);
      forall i | 0 <= i < n
        ensures KeyAt(rules, xs, i) != key
      {
        KeysDistinct(rules, xs, i, n);
      }
    } else if i :| 0 <= i < n && KeyAt(rules, xs, i) == key {
      AtIs(rules, xs, n, i);
      AtIs(rules, xs, n + 1, i);
    } else {
      assert forall i | 0 <= i < n + 1 :: KeyAt(rules, xs, i) != key;
    }
  }

  lemma BaseStep(rules: Rules, ob: seq<Interaction>, m: nat, oc: seq<Interaction>, pairs: map<string, Pair>)
    requires m < |ob| && Paired(rules, ob, m, oc, 0, pairs)
    ensures
      var key := KeyAt(rules, ob, m);
      Paired(rules, ob, m + 1, oc, 0, pairs[key := Pair(key, Some(ob[m]), None)])
  {
    var key := KeyAt(rules, ob, m);
    var pairs', m' := pairs[key := Pair(key, Some(ob[m]), None)], m + 1;
    forall k
      ensures HoldsAt(rules, ob, m', oc, 0, pairs', k)
    {
      AtGrows(rules, ob, m, k);
      assert HoldsAt(rules, ob, m, oc, 0, pairs, k);
    }
  }

  lemma CandidateStep(rules: Rules, ob: seq<Interaction>, oc: seq<Interaction>, n: nat, pairs: map<string, Pair>)
    requires n < |oc| && Paired(rules, ob, |ob|, oc, n, pairs)
    ensures
      var key := KeyAt(rules, oc, n);
      && ExtraKeys(rules, ob, oc, n + 1) == ExtraKeys(rules, ob, oc, n) + (if key in pairs then [] else [key])
      && Paired(rules, ob, |ob|, oc, n + 1, pairs[key := Stored(pairs, key).(candidate := Some(oc[n]))])
  {
    var key := KeyAt(rules, oc, n);
    var pairs', n' := pairs[key := Stored(pairs, key).(candidate := Some(oc[n]))], n + 1;
    AtGrows(rules, oc, n, key);
    assert HoldsAt(rules, ob, |ob|, oc, n, pairs, key);
    forall k
      ensures HoldsAt(rules, ob, |ob|, oc, n', pairs', k)
    {
      AtGrows(rules, oc, n, k);
      assert HoldsAt(rules, ob, |ob|, oc, n, pairs, k);
    }
  }

  method PairBase(rules: Rules, base: seq<Indexed>, ghost ob: seq<Interaction>, ghost oc: seq<Interaction>)
    returns (pairs: map<string, Pair>, order: seq<string>)
    requires |base| == |ob| && forall i | 0 <= i < |ob| :: base[i] == Indexed(KeyAt(rules, ob, i), ob[i])
    ensures order == BaseKeys(rules, ob, |ob|)
    ensures Paired(rules, ob, |ob|, oc, 0, pairs)
  {
    pairs, order := map[], [];
    for n := 0 to |base|
      invariant order == BaseKeys(rules, ob, n)
      invariant Paired(rules, ob, n, oc, 0, pairs)
    {
      BaseStep(rules, ob, n, oc, pairs);
      pairs := pairs[base[n].key := Pair(base[n].key, Some(base[n].item), None)];
      order := order + [base[n].key];
    }
  }

  method PairCandidate(rules: Rules, candidate: seq<Indexed>, ghost ob: seq<Interaction>, ghost oc: seq<Interaction>,
                       before: map<string, Pair>, keys: seq<string>)
    returns (pairs: map<string, Pair>, order: seq<string>)
    requires |candidate| == |oc| && forall i | 0 <= i < |oc| :: candidate[i] == Indexed(KeyAt(rules, oc, i), oc[i])
    requires keys == BaseKeys(rules, ob, |ob|)
    requires Paired(rules, ob, |ob|, oc, 0, before)
    ensures order == AllKeys(rules, ob, oc)
    ensures Paired(rules, ob, |ob|, oc, |oc|, pairs)
  {
    pairs, order := before, keys;
    for n := 0 to |candidate|
      invariant order == keys + ExtraKeys(rules, ob, oc, n)
      invariant Paired(rules, ob, |ob|, oc, n, pairs)
    {
      CandidateStep(rules, ob, oc, n, pairs);
      var key := candidate[n].key;
      if key !in pairs {
        order := order + [key];
      }
      pairs := pairs[key := Stored(pairs, key).(candidate := Some(candidate[n].item))];
    }
  }

  function Lookup(pairs: map<string, Pair>): string -> Pair {
    key => Stored(pairs, key)
  }

  function KeyLe(pairs: map<string, Pair>): (string, string) -> bool {
    (a, b) => PairLe(Stored(pairs, a), Stored(pairs, b))
  }

  lemma LookupAll(rules: Rules, ob: seq<Interaction>, oc: seq<Interaction>, pairs: map<string, Pair>)
    requires Paired(rules, ob, |ob|, oc, |oc|, pairs)
    ensures Map(AllKeys(rules, ob, oc), Lookup(pairs)) == Unsorted(rules, ob, oc)
  {
    forall key
      ensures Lookup(pairs)(key) == PairAt(rules, ob, oc, key)
    {
      assert HoldsAt(rules, ob, |ob|, oc, |oc|, pairs, key);
    }
  }

  method AlignInteractions(
    rules: Rules, base: seq<Interaction>, candidate: seq<Interaction>) returns (aligned: seq<Pair>)
    ensures aligned == Aligned(rules, base, candidate)
  {
    ghost var ob, oc := Ordered(base), Ordered(candidate);
    var baseIndexed := IndexInteractions(rules, base);
    var candidateIndexed := IndexInteractions(rules, candidate);
    var pairs, order := PairBase(rules, baseIndexed, ob, oc);
    pairs, order := PairCandidate(rules, candidateIndexed, ob, oc, pairs, order);
    LookupAll(rules, ob, oc, pairs);
    MapSort(order, Lookup(pairs), KeyLe(pairs), PairLe);
    aligned := Map(Sort(order, KeyLe(pairs)), Lookup(pairs));
  }

  method SameContent(rules: Rules, b: Interaction, c: Interaction) returns (same: bool)
    ensures same <==> !Differs(rules, b, c)
  {
    var ignored := Ignored(rules, b);
    var left := RemoveIgnoredFields(rules.query(b.document, ignored), ignored);
    var right := RemoveIgnoredFields(rules.query(c.document, ignored), ignored);
    ListsMembers(ignored);
    assert left == Canonical(rules, b, ignored) && right == Canonical(rules, c, ignored);
    same := left == right;
  }

  lemma ListsMembers(s: set<Path>)
    ensures forall p :: p in Members(s) <==> p in s
  {
    MembersAre(s);
    forall p
      ensures p in Members(s) <==> p in s
    {
      assert p in Members(s) <==> p in multiset(Members(s));
    }
  }

  method Report(rules: Rules, p: Pair) returns (found: seq<Change>)
    ensures found == Changes(rules, p)
  {
    found := [];
    if p.base.None? && p.candidate.Some? {
      found := [Change(Added, true, p.base, p.candidate)];
    } else if p.base.Some? && p.candidate.None? {
      found := [Change(Removed, true, p.base, p.candidate)];
    } else if p.base.Some? && p.candidate.Some? {
      var b, c := p.base.value, p.candidate.value;
      if b.sequence != c.sequence {
        found := found + [Change(OrderingChanged, false, p.base, p.candidate)];
      }
      if Rank(c.tier) > Rank(b.tier) {
        found := found + [Change(FallbackRegression, true, p.base, p.candidate)];
      }
      var same := SameContent(rules, b, c);
      if !same {
        found := found + [Change(Modified, true, p.base, p.candidate)];
      }
    }
  }

  /** The whole comparison: the reports on each aligned pair, in order. */
  method Compare(rules: Rules, base: Run, candidate: Run) returns (r: Result<seq<Change>, Error>)
    ensures r == Comparison(rules, base, candidate)
  {
    if Blank(base.session) || Blank(candidate.session) {
      return Err(NoSession);
    }
    if base.session != candidate.session {
      return Err(OtherSession);
    }
    var aligned := AlignInteractions(rules, base.interactions, candidate.interactions);
    var changes: seq<Change> := [];
    for n := 0 to |aligned|
      invariant changes == AllChanges(rules, aligned[..n])
    {
      assert aligned[..n + 1][..n] == aligned[..n];
      var found := Report(rules, aligned[n]);
      changes := changes + found;
    }
    assert aligned[..|aligned|] == aligned;
    r := Ok(changes);
  }
}
