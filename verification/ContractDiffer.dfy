/** The loops of the contract diff: snapshots updated interaction by interaction, merged prompt
    digests, and the sorted walk over the keys of both runs. */
module ContractDiffer {
  import opened Actions
  import opened ContractDiff
  import opened KeyOrder
  import opened Results
  import opened Sorting
  import opened Text

  lemma DigestOrder(ds: seq<Digest>)
    ensures Preorder(DigestLe) && NoTies(ds, DigestLe)
  {
    forall a: Digest, b: Digest
      ensures DigestLe(a, b) || DigestLe(b, a)
      ensures DigestLe(a, b) && DigestLe(b, a) ==> a == b
    {
      DigestPair(a, b);
    }
    forall a: Digest, b: Digest, c: Digest | DigestLe(a, b) && DigestLe(b, c)
      ensures DigestLe(a, c)
    {
      DigestChain(a, b, c);
    }
  }

  lemma DigestPair(a: Digest, b: Digest)
    ensures DigestLe(a, b) || DigestLe(b, a)
    ensures DigestLe(a, b) && DigestLe(b, a) ==> a == b
  {
    StrLeTotal(a.path, b.path);
    StrLeTotal(a.hash, b.hash);
    if DigestLe(a, b) && DigestLe(b, a) {
      if a.path != b.path {
        StrLeAntisymmetric(a.path, b.path);
      } else {
        StrLeAntisymmetric(a.hash, b.hash);
      }
    }
  }

  lemma DigestChain(a: Digest, b: Digest, c: Digest)
    requires DigestLe(a, b) && DigestLe(b, c)
    ensures DigestLe(a, c)
  {
    if a.path == b.path == c.path {
      StrLeTransitive(a.hash, b.hash, c.hash);
    } else if a.path != b.path && b.path != c.path {
      StrLeTransitive(a.path, b.path, c.path);
      if a.path == c.path {
        StrLeAntisymmetric(a.path, b.path);
      }
    }
  }

  /** Merging keeps each digest once and sorts: the result is the union, in order. */
  method MergePromptDigests(existing: seq<Digest>, candidates: seq<Digest>) returns (merged: seq<Digest>)
    ensures merged == SortedDigests((set d | d in existing) + (set d | d in candidates))
  {
    var found: seq<Digest>, seen: set<Digest>, all := [], {}, existing + candidates;
    for n := 0 to |all|
      invariant seen == set d | d in all[..n]
      invariant multiset(found) == multiset(seen)
    {
      assert all[..n + 1] == all[..n] + [all[n]];
      if all[n] !in seen {
        found := found + [all[n]];
        seen := seen + {all[n]};
      }
    }
    assert all[..|all|] == all;
    MembersAre(seen);
    DigestOrder(found);
    SortPermutation(found, Members(seen), DigestLe);
    assert seen == (set d | d in existing) + (set d | d in candidates);
    merged := Sort(found, DigestLe);
  }

  lemma SortedDigestsAre(ds: set<Digest>)
    ensures (set d | d in SortedDigests(ds)) == ds
  {
    MembersAre(ds);
    SortKeeps(Members(ds), DigestLe);
    forall d
      ensures d in SortedDigests(ds) <==> d in ds
    {
      assert d in SortedDigests(ds) <==> d in multiset(SortedDigests(ds));
      assert d in ds <==> d in multiset(ds);
    }
  }

  /** One interaction joins what is known about its action. */
  method Update(s: Option<Snapshot>, x: Interaction, ghost ys: seq<Interaction>) returns (t: Snapshot)
    requires s == if ys == [] then None else Some(SnapshotOf(ys))
    ensures t == SnapshotOf(ys + [x])
  {
    var was := if s.Some? then s.value else Snapshot(x.sequence, "", [], [], []);
    EmptyShows();
    assert (ys + [x])[..|ys|] == ys;
    var first := if x.sequence < was.first then x.sequence else was.first;
    var effect := HigherRisk(was.effect, x.effect);
    var tiers := if x.tier in TIERS && x.tier !in was.tiers then was.tiers + [x.tier] else was.tiers;
    TiersSnoc(ys, x);
    assert was.tiers == TiersOf(ys);
    tiers := Sort(tiers, TierLe);
    var models := UpdateModels(was.models, x, ys);
    var prompts := UpdatePrompts(was.prompts, x, ys);
    assert first == FirstSequence(ys + [x]) && effect == TopEffect(ys + [x], Observed);
    t := Snapshot(first, effect, tiers, models, prompts);
  }

  lemma EmptyShows()
    ensures TiersOf([]) == [] && Listed(ModelsOf([])) == [] && SortedDigests(PromptsOf([])) == []
    ensures TopEffect([], Observed) == ""
  {
    FilterNone(TIERS, t => Uses([], t));
    assert ModelsOf([]) == {} && PromptsOf([]) == {};
  }

  function Trimmed(models: set<string>): set<string> {
    set m | m in models && !Blank(m) :: TrimSpace(m)
  }

  lemma TrimmedTwice(ys: seq<Interaction>)
    ensures Trimmed(ModelsOf(ys)) == ModelsOf(ys)
  {
    forall m | m in ModelsOf(ys)
      ensures TrimSpace(m) == m && !Blank(m)
    {
      var y, raw :| y in ys && raw in y.models && !Blank(raw) && TrimSpace(raw) == m;
      TrimIdempotent(raw);
    }
  }

  lemma ModelsSnoc(ys: seq<Interaction>, x: Interaction)
    ensures ModelsOf(ys + [x]) == ModelsOf(ys) + Trimmed(x.models)
    ensures PromptsOf(ys + [x]) == PromptsOf(ys) + set d | d in x.prompts
  {
    assert forall y :: y in ys + [x] <==> y in ys || y == x;
  }

  method UpdateModels(models: seq<string>, x: Interaction, ghost ys: seq<Interaction>) returns (more: seq<string>)
    requires models == Listed(ModelsOf(ys))
    ensures more == Listed(ModelsOf(ys + [x]))
  {
    KnownModels(ys);
    TrimmedTwice(ys);
    ModelsSnoc(ys, x);
    more := ListKeys(Trimmed(set m | m in models) + Trimmed(x.models));
  }

  lemma KnownModels(ys: seq<Interaction>)
    ensures (set m | m in Listed(ModelsOf(ys))) == ModelsOf(ys)
  {
    ListedAre(ModelsOf(ys));
  }

  method UpdatePrompts(prompts: seq<Digest>, x: Interaction, ghost ys: seq<Interaction>) returns (more: seq<Digest>)
    requires prompts == SortedDigests(PromptsOf(ys))
    ensures more == SortedDigests(PromptsOf(ys + [x]))
  {
    SortedDigestsAre(PromptsOf(ys));
    ModelsSnoc(ys, x);
    more := MergePromptDigests(prompts, x.prompts);
  }

  ghost predicate ShownAt(snapshots: map<string, Snapshot>, xs: seq<Interaction>, key: string) {
    SnapshotFor(xs, key) == if key in snapshots then Some(snapshots[key]) else None
  }

  ghost predicate Shown(snapshots: map<string, Snapshot>, xs: seq<Interaction>) {
    forall key :: ShownAt(snapshots, xs, key)
  }

  lemma ShownStep(snapshots: map<string, Snapshot>, xs: seq<Interaction>, x: Interaction, t: Snapshot)
    requires Shown(snapshots, xs) && KeyOf(x).Some?
    requires t == SnapshotOf(Of(xs, KeyOf(x).value) + [x])
    ensures Shown(snapshots[KeyOf(x).value := t], xs + [x])
  {
    var snapshots', xs' := snapshots[KeyOf(x).value := t], xs + [x];
    forall key: string
      ensures ShownAt(snapshots', xs', key)
    {
      assert ShownAt(snapshots, xs, key);
      OfSnoc(xs, x, key);
      assert Of(xs, key) + [] == Of(xs, key);
    }
  }

  lemma ShownSkip(snapshots: map<string, Snapshot>, xs: seq<Interaction>, x: Interaction)
    requires Shown(snapshots, xs) && KeyOf(x).None?
    ensures Shown(snapshots, xs + [x])
  {
    var xs' := xs + [x];
    forall key: string
      ensures ShownAt(snapshots, xs', key)
    {
      assert ShownAt(snapshots, xs, key);
      OfSnoc(xs, x, key);
      assert Of(xs, key) + [] == Of(xs, key);
    }
  }

  method SnapshotsFromRun(xs: seq<Interaction>) returns (snapshots: map<string, Snapshot>)
    ensures Shown(snapshots, xs)
  {
    snapshots := map[];
    for n := 0 to |xs|
      invariant Shown(snapshots, xs[..n])
    {
      var x := xs[n];
      assert xs[..n + 1] == xs[..n] + [x];
      var who := SelectorOf(x);
      if who.None? {
        ShownSkip(snapshots, xs[..n], x);
        continue;
      }
      var key := Key(who.value);
      assert ShownAt(snapshots, xs[..n], key);
      var t := Update(if key in snapshots then Some(snapshots[key]) else None, x, Of(xs[..n], key));
      ShownStep(snapshots, xs[..n], x, t);
      snapshots := snapshots[key := t];
    }
    assert xs[..|xs|] == xs;
  }

  lemma ShownKeys(snapshots: map<string, Snapshot>, xs: seq<Interaction>)
    requires Shown(snapshots, xs)
    ensures snapshots.Keys == KeysOf(xs)
  {
    forall key: string
      ensures key in snapshots.Keys <==> key in KeysOf(xs)
    {
      assert ShownAt(snapshots, xs, key);
      OfIs(xs, key);
    }
  }

  function Get(snapshots: map<string, Snapshot>, key: string): Option<Snapshot> {
    if key in snapshots then Some(snapshots[key]) else None
  }

  function Before(b: map<string, Snapshot>, c: map<string, Snapshot>): (string, string) -> bool {
    (j: string, k: string) =>
      var m, n := SortSequence(Get(b, j), Get(c, j)), SortSequence(Get(b, k), Get(c, k));
      m < n || (m == n && StrLe(j, k))
  }

  /** The keys of both runs, found in any order and sorted by first appearance. */
  method UnionKeys(
    b: map<string, Snapshot>, c: map<string, Snapshot>, ghost base: seq<Interaction>, ghost candidate: seq<Interaction>)
    returns (keys: seq<string>)
    requires Shown(b, base) && Shown(c, candidate)
    ensures keys == OrderedKeys(base, candidate)
  {
    ShownKeys(b, base);
    ShownKeys(c, candidate);
    var all := ListKeys(b.Keys + c.Keys);
    MembersAre(b.Keys + c.Keys);
    SortKeeps(Members(b.Keys + c.Keys), StrLe);
    BeforeSorts(b, c, base, candidate, all);
    keys := Sort(all, Before(b, c));
  }

  lemma BeforeIs(
    b: map<string, Snapshot>, c: map<string, Snapshot>, base: seq<Interaction>, candidate: seq<Interaction>,
    j: string, k: string)
    requires Shown(b, base) && Shown(c, candidate)
    ensures Before(b, c)(j, k) == KeyBefore(base, candidate, j, k)
  {
    assert ShownAt(b, base, j) && ShownAt(b, base, k) && ShownAt(c, candidate, j) && ShownAt(c, candidate, k);
  }

  lemma BeforeSorts(
    b: map<string, Snapshot>, c: map<string, Snapshot>, base: seq<Interaction>, candidate: seq<Interaction>,
    all: seq<string>)
    requires Shown(b, base) && Shown(c, candidate)
    requires multiset(all) == multiset(KeysOf(base) + KeysOf(candidate))
    ensures Sort(all, Before(b, c)) == OrderedKeys(base, candidate)
  {
    forall j: string, k: string
      ensures Before(b, c)(j, k) == KeyBefore(base, candidate, j, k)
    {
      BeforeIs(b, c, base, candidate, j, k);
    }
    SortSame(all, Before(b, c), (j, k) => KeyBefore(base, candidate, j, k));
    KeyOrderIs(base, candidate, all);
  }

  method CompareSnapshots(key: string, b: Option<Snapshot>, c: Option<Snapshot>) returns (changes: seq<Change>)
    ensures changes == Differences(key, b, c)
  {
    changes := [];
    if b.None? && c.Some? {
      changes := [Change(NewAction, key, b, c)];
    } else if b.Some? && c.None? {
      changes := [Change(RemovedAction, key, b, c)];
    } else if b.Some? && c.Some? {
      if b.value.effect != c.value.effect {
        changes := changes + [Change(EffectChanged, key, b, c)];
      }
      if b.value.tiers != c.value.tiers {
        changes := changes + [Change(TiersChanged, key, b, c)];
      }
      if b.value.models != c.value.models {
        changes := changes + [Change(ModelsChanged, key, b, c)];
      }
      if b.value.prompts != c.value.prompts {
        changes := changes + [Change(PromptsChanged, key, b, c)];
      }
    }
  }

  method CompareAll(keys: seq<string>, b: map<string, Snapshot>, c: map<string, Snapshot>)
    returns (changes: seq<Change>)
    ensures changes == Gather(keys, key => Differences(key, Get(b, key), Get(c, key)))
  {
    changes := [];
    for n := 0 to |keys|
      invariant changes == Gather(keys[..n], key => Differences(key, Get(b, key), Get(c, key)))
    {
      assert keys[..n + 1][..n] == keys[..n];
      var found := CompareSnapshots(keys[n], Get(b, keys[n]), Get(c, keys[n]));
      changes := changes + found;
    }
    assert keys[..|keys|] == keys;
  }

  method DiffRuns(base: Run, candidate: Run) returns (r: Result<seq<Change>, Error>)
    ensures r == Difference(base, candidate)
  {
    if Blank(base.session) || Blank(candidate.session) {
      return Err(NoSession);
    }
    if base.session != candidate.session {
      return Err(OtherSession);
    }
    var b := SnapshotsFromRun(base.interactions);
    var c := SnapshotsFromRun(candidate.interactions);
    var keys := UnionKeys(b, c, base.interactions, candidate.interactions);
    var changes := CompareAll(keys, b, c);
    forall key: string
      ensures Get(b, key) == SnapshotFor(base.interactions, key) && Get(c, key) == SnapshotFor(candidate.interactions, key)
    {
      assert ShownAt(b, base.interactions, key) && ShownAt(c, candidate.interactions, key);
    }
    GatherSame(keys, key => Differences(key, Get(b, key), Get(c, key)), ChangesAt(base.interactions, candidate.interactions));
    r := Ok(changes);
  }
}
