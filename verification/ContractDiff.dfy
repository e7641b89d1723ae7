/** Comparing what two runs show about each action: new and removed actions, and changed risk,
    fallback tiers, models and prompts. */
module ContractDiff {
  import opened Actions
  import opened KeyOrder
  import opened Results
  import opened Sorting
  import opened Text

  datatype Snapshot = Snapshot(
    first: int, effect: string, tiers: seq<string>, models: seq<string>, prompts: seq<Digest>)

  datatype Kind = NewAction | RemovedAction | EffectChanged | TiersChanged | ModelsChanged | PromptsChanged

  datatype Change = Change(kind: Kind, key: string, base: Option<Snapshot>, candidate: Option<Snapshot>)

  datatype Run = Run(session: string, interactions: seq<Interaction>)

  datatype Error = NoSession | OtherSession

  // --------------------------------------------------------- what a run shows

  function FirstSequence(ys: seq<Interaction>): int
    requires ys != []
  {
    var last := ys[|ys| - 1].sequence;
    if |ys| == 1 then last
    else
      var before := FirstSequence(ys[..|ys| - 1]);
      if last < before then last else before
  }

  predicate DigestLe(a: Digest, b: Digest) {
    if a.path != b.path then StrLe(a.path, b.path) else StrLe(a.hash, b.hash)
  }

  ghost function SortedDigests(ds: set<Digest>): seq<Digest> {
    Sort(Members(ds), DigestLe)
  }

  function Observed(x: Interaction): string {
    x.effect
  }

  ghost function SnapshotOf(ys: seq<Interaction>): Snapshot
    requires ys != []
  {
    Snapshot(FirstSequence(ys), TopEffect(ys, Observed), TiersOf(ys), Listed(ModelsOf(ys)), SortedDigests(PromptsOf(ys)))
  }

  ghost function SnapshotFor(xs: seq<Interaction>, key: string): Option<Snapshot> {
    if Of(xs, key) == [] then None else Some(SnapshotOf(Of(xs, key)))
  }

  function Differences(key: string, b: Option<Snapshot>, c: Option<Snapshot>): seq<Change> {
    match (b, c)
    case (None, None) => []
    case (None, Some(_)) => [Change(NewAction, key, b, c)]
    case (Some(_), None) => [Change(RemovedAction, key, b, c)]
    case (Some(s), Some(t)) =>
      (if s.effect != t.effect then [Change(EffectChanged, key, b, c)] else [])
      + (if s.tiers != t.tiers then [Change(TiersChanged, key, b, c)] else [])
      + (if s.models != t.models then [Change(ModelsChanged, key, b, c)] else [])
      + (if s.prompts != t.prompts then [Change(PromptsChanged, key, b, c)] else [])
  }

  function SortSequence(b: Option<Snapshot>, c: Option<Snapshot>): int {
    if b.Some? then b.value.first else if c.Some? then c.value.first else 0
  }

  ghost predicate KeyBefore(base: seq<Interaction>, candidate: seq<Interaction>, j: string, k: string) {
    var m := SortSequence(SnapshotFor(base, j), SnapshotFor(candidate, j));
    var n := SortSequence(SnapshotFor(base, k), SnapshotFor(candidate, k));
    m < n || (m == n && StrLe(j, k))
  }

  /** The keys of both runs by first appearance. */
  ghost function OrderedKeys(base: seq<Interaction>, candidate: seq<Interaction>): seq<string> {
    Sort(Members(KeysOf(base) + KeysOf(candidate)), (j, k) => KeyBefore(base, candidate, j, k))
  }

  ghost function ChangesAt(base: seq<Interaction>, candidate: seq<Interaction>): string -> seq<Change> {
    key => Differences(key, SnapshotFor(base, key), SnapshotFor(candidate, key))
  }

  ghost function RunChanges(base: seq<Interaction>, candidate: seq<Interaction>): seq<Change> {
    Gather(OrderedKeys(base, candidate), ChangesAt(base, candidate))
  }

  ghost function Difference(base: Run, candidate: Run): Result<seq<Change>, Error> {
    if Blank(base.session) || Blank(candidate.session) then Err(NoSession)
    else if base.session != candidate.session then Err(OtherSession)
    else Ok(RunChanges(base.interactions, candidate.interactions))
  }

  // ------------------------------------------------------ order is irrelevant

  lemma {:induction false} FirstSequenceIs(ys: seq<Interaction>)
    requires ys != []
    ensures forall y | y in ys :: FirstSequence(ys) <= y.sequence
    ensures exists y :: y in ys && y.sequence == FirstSequence(ys)
  {
    var front, last := ys[..|ys| - 1], ys[|ys| - 1];
    assert ys == front + [last];
    assert last in ys;
    if |ys| > 1 {
      FirstSequenceIs(front);
    }
  }

  lemma SnapshotPermutes(ys: seq<Interaction>, zs: seq<Interaction>)
    requires ys != [] && zs != [] && forall y :: y in ys <==> y in zs
    ensures SnapshotOf(ys) == SnapshotOf(zs)
  {
    FirstSequenceIs(ys);
    FirstSequenceIs(zs);
    TopEffectPermutes(ys, zs, Observed);
    TiersPermute(ys, zs);
    assert ModelsOf(ys) == ModelsOf(zs);
    assert PromptsOf(ys) == PromptsOf(zs);
  }

  /** What a run shows about an action depends only on the collection of its interactions. */
  lemma SnapshotForPermutes(xs: seq<Interaction>, ys: seq<Interaction>, key: string)
    requires multiset(xs) == multiset(ys)
    ensures SnapshotFor(xs, key) == SnapshotFor(ys, key)
  {
    FilterMembers(xs, ys, x => KeyOf(x) == Some(key));
    OfIs(xs, key);
    OfIs(ys, key);
    KeysPermute(xs, ys);
    if Of(xs, key) != [] {
      SnapshotPermutes(Of(xs, key), Of(ys, key));
    }
  }

  lemma KeysPermute(xs: seq<Interaction>, ys: seq<Interaction>)
    requires multiset(xs) == multiset(ys)
    ensures KeysOf(xs) == KeysOf(ys)
  {
    MultisetMembers(xs, ys);
  }

  lemma ChangesPermute(base: seq<Interaction>, candidate: seq<Interaction>,
                       base': seq<Interaction>, candidate': seq<Interaction>, keys: seq<string>)
    requires multiset(base) == multiset(base') && multiset(candidate) == multiset(candidate')
    ensures Gather(keys, ChangesAt(base, candidate)) == Gather(keys, ChangesAt(base', candidate'))
  {
    forall key
      ensures ChangesAt(base, candidate)(key) == ChangesAt(base', candidate')(key)
    {
      SnapshotForPermutes(base, base', key);
      SnapshotForPermutes(candidate, candidate', key);
    }
    GatherSame(keys, ChangesAt(base, candidate), ChangesAt(base', candidate'));
  }

  lemma {:induction false} SortSame<T(!new)>(s: seq<T>, le1: (T, T) -> bool, le2: (T, T) -> bool)
    requires forall x, y :: le1(x, y) == le2(x, y)
    ensures Sort(s, le1) == Sort(s, le2)
  {
    if s != [] {
      SortSame(s[1..], le1, le2);
      InsertSame(s[0], Sort(s[1..], le1), le1, le2);
    }
  }

  lemma {:induction false} InsertSame<T(!new)>(x: T, s: seq<T>, le1: (T, T) -> bool, le2: (T, T) -> bool)
    requires forall y, z :: le1(y, z) == le2(y, z)
    ensures Insert(x, s, le1) == Insert(x, s, le2)
  {
    if s != [] {
      InsertSame(x, s[1..], le1, le2);
    }
  }

  lemma OrderedKeysPermute(base: seq<Interaction>, candidate: seq<Interaction>,
                           base': seq<Interaction>, candidate': seq<Interaction>)
    requires multiset(base) == multiset(base') && multiset(candidate) == multiset(candidate')
    ensures OrderedKeys(base, candidate) == OrderedKeys(base', candidate')
  {
    KeysPermute(base, base');
    KeysPermute(candidate, candidate');
    forall j, k
      ensures KeyBefore(base, candidate, j, k) == KeyBefore(base', candidate', j, k)
    {
      SnapshotForPermutes(base, base', j);
      SnapshotForPermutes(base, base', k);
      SnapshotForPermutes(candidate, candidate', j);
      SnapshotForPermutes(candidate, candidate', k);
    }
    SortSame(Members(KeysOf(base) + KeysOf(candidate)),
      (j, k) => KeyBefore(base, candidate, j, k), (j, k) => KeyBefore(base', candidate', j, k));
  }

  /** The evidence of an action is the list of its interactions in run order: permuting the run
      permutes the evidence. */
  lemma EvidencePermutes(xs: seq<Interaction>, ys: seq<Interaction>, key: string)
    requires multiset(xs) == multiset(ys)
    ensures multiset(Of(xs, key)) == multiset(Of(ys, key))
  {
    FilterPermutes(xs, ys, x => KeyOf(x) == Some(key));
  }

  /** Permuting either run leaves the changes and what they show as they are.  The evidence beside
      each change follows the order of the runs and is permuted with them. */
  lemma RunOrderIrrelevant(base: Run, candidate: Run, base': Run, candidate': Run)
    requires base.session == base'.session && multiset(base.interactions) == multiset(base'.interactions)
    requires candidate.session == candidate'.session
    requires multiset(candidate.interactions) == multiset(candidate'.interactions)
    ensures Difference(base, candidate) == Difference(base', candidate')
  {
    RunChangesPermute(base.interactions, candidate.interactions, base'.interactions, candidate'.interactions);
  }

  lemma RunChangesPermute(
    base: seq<Interaction>, candidate: seq<Interaction>, base': seq<Interaction>, candidate': seq<Interaction>)
    requires multiset(base) == multiset(base') && multiset(candidate) == multiset(candidate')
    ensures RunChanges(base, candidate) == RunChanges(base', candidate')
  {
    OrderedKeysPermute(base, candidate, base', candidate');
    ChangesPermute(base, candidate, base', candidate', OrderedKeys(base, candidate));
  }

  // ------------------------------------------------------------- no changes

  /** Everything a comparison looks at; the first appearance is not. */
  ghost predicate ShowsSame(b: Option<Snapshot>, c: Option<Snapshot>) {
    b.Some? == c.Some? && (b.Some? ==> b.value.(first := 0) == c.value.(first := 0))
  }

  /** Both runs show the same about one action. */
  ghost predicate Steady(base: seq<Interaction>, candidate: seq<Interaction>, key: string) {
    ShowsSame(SnapshotFor(base, key), SnapshotFor(candidate, key))
  }

  lemma NoDifferencesIff(base: seq<Interaction>, candidate: seq<Interaction>, key: string)
    ensures Differences(key, SnapshotFor(base, key), SnapshotFor(candidate, key)) == [] <==> Steady(base, candidate, key)
  {
  }

  lemma OrderedKeysAre(base: seq<Interaction>, candidate: seq<Interaction>)
    ensures forall key :: key in OrderedKeys(base, candidate) <==> key in KeysOf(base) || key in KeysOf(candidate)
  {
    var all := KeysOf(base) + KeysOf(candidate);
    MembersAre(all);
    SortKeeps(Members(all), (j, k) => KeyBefore(base, candidate, j, k));
    forall key
      ensures key in OrderedKeys(base, candidate) <==> key in all
    {
      assert key in OrderedKeys(base, candidate) <==> key in multiset(OrderedKeys(base, candidate));
      assert key in all <==> key in multiset(all);
    }
  }

  /** No change is reported exactly when both runs show the same about every action. */
  lemma NoChangesIff(base: seq<Interaction>, candidate: seq<Interaction>)
    ensures RunChanges(base, candidate) == [] <==>
            forall key :: Steady(base, candidate, key)
  {
    GatherEmpty(OrderedKeys(base, candidate), ChangesAt(base, candidate));
    OrderedKeysAre(base, candidate);
    forall key
      ensures ChangesAt(base, candidate)(key) == [] <==> Steady(base, candidate, key)
    {
      NoDifferencesIff(base, candidate, key);
    }
    forall key | key !in OrderedKeys(base, candidate)
      ensures Steady(base, candidate, key)
    {
      OfIs(base, key);
      OfIs(candidate, key);
    }
  }

  /** A run against any permutation of itself shows no change. */
  lemma SelfDifference(run: Run, permuted: Run)
    requires !Blank(run.session) && permuted.session == run.session
    requires multiset(run.interactions) == multiset(permuted.interactions)
    ensures Difference(run, permuted) == Ok([])
  {
    forall key
      ensures Steady(run.interactions, permuted.interactions, key)
    {
      SnapshotForPermutes(run.interactions, permuted.interactions, key);
    }
    NoChangesIff(run.interactions, permuted.interactions);
  }

  // ---------------------------------------------------------- the key order

  lemma KeyBeforePreorder(base: seq<Interaction>, candidate: seq<Interaction>)
    ensures Preorder((j, k) => KeyBefore(base, candidate, j, k))
  {
    forall j: string, k: string
      ensures KeyBefore(base, candidate, j, k) || KeyBefore(base, candidate, k, j)
    {
      StrLeTotal(j, k);
    }
    forall j: string, k: string, l: string | KeyBefore(base, candidate, j, k) && KeyBefore(base, candidate, k, l)
      ensures KeyBefore(base, candidate, j, l)
    {
      KeyBeforeTransitive(base, candidate, j, k, l);
    }
  }

  lemma KeyBeforeTransitive(base: seq<Interaction>, candidate: seq<Interaction>, j: string, k: string, l: string)
    requires KeyBefore(base, candidate, j, k) && KeyBefore(base, candidate, k, l)
    ensures KeyBefore(base, candidate, j, l)
  {
    if StrLe(j, k) && StrLe(k, l) {
      StrLeTransitive(j, k, l);
    }
  }

  /** Changes are reported by first appearance, whatever order the maps yield the keys in. */
  lemma KeyOrderIs(base: seq<Interaction>, candidate: seq<Interaction>, found: seq<string>)
    requires multiset(found) == multiset(KeysOf(base) + KeysOf(candidate))
    ensures Sort(found, (j, k) => KeyBefore(base, candidate, j, k)) == OrderedKeys(base, candidate)
    ensures Sorted(OrderedKeys(base, candidate), (j, k) => KeyBefore(base, candidate, j, k))
  {
    var all := Members(KeysOf(base) + KeysOf(candidate));
    MembersAre(KeysOf(base) + KeysOf(candidate));
    KeyBeforePreorder(base, candidate);
    forall j: string, k: string | KeyBefore(base, candidate, j, k) && KeyBefore(base, candidate, k, j)
      ensures j == k
    {
      StrLeAntisymmetric(j, k);
    }
    SortPermutation(found, all, (j, k) => KeyBefore(base, candidate, j, k));
    SortSorted(all, (j, k) => KeyBefore(base, candidate, j, k));
  }
}
