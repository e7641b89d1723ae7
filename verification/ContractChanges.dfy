/** Which changes a contract diff reports, said over the interactions of both runs. */
module ContractChanges {
  import opened Actions
  import opened ContractDiff
  import opened ContractGenerator
  import opened GeneratedContracts
  import opened KeyOrder
  import opened Results
  import opened Sorting
  import opened SortingLaws
  import opened Text

  /** What a run shows about an action with these interactions. */
  ghost predicate Shows(s: Snapshot, ys: seq<Interaction>) {
    && (exists y :: y in ys && y.sequence == s.first) && (forall y | y in ys :: s.first <= y.sequence)
    && (if s.effect == "" then forall y | y in ys :: y.effect !in RISKS else Riskiest(s.effect, ys, Observed))
    && TiersUsed(s.tiers, ys)
    && (forall m :: m in s.models <==> exists y, raw :: y in ys && raw in y.models && !Blank(raw) && m == TrimSpace(raw))
    && (forall i, j | 0 <= i < j < |s.models| :: s.models[i] != s.models[j] && StrLe(s.models[i], s.models[j]))
    && (forall d :: d in s.prompts <==> exists y :: y in ys && d in y.prompts)
    && (forall i, j | 0 <= i < j < |s.prompts| ::
          var d, e := s.prompts[i], s.prompts[j];
          if d.path == e.path then d.hash != e.hash && StrLe(d.hash, e.hash) else StrLe(d.path, e.path))
  }

  lemma DigestsOrdered(ds: set<Digest>)
    ensures
      var listed := SortedDigests(ds);
      && (forall d :: d in listed <==> d in ds)
      && forall i, j | 0 <= i < j < |listed| ::
           if listed[i].path == listed[j].path then
             listed[i].hash != listed[j].hash && StrLe(listed[i].hash, listed[j].hash)
           else StrLe(listed[i].path, listed[j].path)
  {
    var listed := SortedDigests(ds);
    MembersAre(ds);
    SortKeeps(Members(ds), DigestLe);
    DigestLePreorder();
    SortSorted(Members(ds), DigestLe);
    forall d
      ensures d in listed <==> d in ds
    {
      assert d in listed <==> d in multiset(listed);
      assert d in ds <==> d in multiset(ds);
    }
    forall i, j | 0 <= i < j < |listed|
      ensures listed[i] != listed[j]
    {
      assert multiset(ds)[listed[i]] <= 1;
      if listed[i] == listed[j] {
        TwiceCounts(listed, i, j);
      }
    }
  }

  lemma DigestLePreorder()
    ensures Preorder(DigestLe)
  {
    forall a: Digest, b: Digest
      ensures DigestLe(a, b) || DigestLe(b, a)
    {
      StrLeTotal(a.path, b.path);
      StrLeTotal(a.hash, b.hash);
    }
    forall a: Digest, b: Digest, c: Digest | DigestLe(a, b) && DigestLe(b, c)
      ensures DigestLe(a, c)
    {
      DigestLeTransitive(a, b, c);
    }
  }

  lemma DigestLeTransitive(a: Digest, b: Digest, c: Digest)
    requires DigestLe(a, b) && DigestLe(b, c)
    ensures DigestLe(a, c)
  {
    if a.path == b.path == c.path {
      StrLeTransitive(a.hash, b.hash, c.hash);
    } else if a.path != b.path && b.path != c.path {
      StrLeTransitive(a.path, b.path, c.path);
      if a.path == c.path {
        StrLeAntisymmetric(a.path, b.path);
      }
    }
  }

  lemma ModelsOrdered(ms: set<string>)
    ensures forall m :: m in Listed(ms) <==> m in ms
    ensures forall i, j | 0 <= i < j < |Listed(ms)| :: Listed(ms)[i] != Listed(ms)[j] && StrLe(Listed(ms)[i], Listed(ms)[j])
  {
    ListedAre(ms);
    StrLePreorder();
    SortSorted(Members(ms), StrLe);
  }

  lemma EffectShown(ys: seq<Interaction>)
    ensures
      var top := TopEffect(ys, Observed);
      if top == "" then forall y | y in ys :: y.effect !in RISKS else Riskiest(top, ys, Observed)
  {
    TopIsRiskiest(ys, Observed);
    TopEffectIs(ys, Observed);
    if TopEffect(ys, Observed) == "" {
      forall y | y in ys
        ensures y.effect !in RISKS
      {
        RanksAre(y.effect);
        assert Rank(Observed(y)) <= 0;
      }
    }
  }

  lemma SnapshotShows(ys: seq<Interaction>)
    requires ys != []
    ensures Shows(SnapshotOf(ys), ys)
  {
    FirstSequenceIs(ys);
    EffectShown(ys);
    TiersAreUsed(ys);
    ModelsOrdered(ModelsOf(ys));
    DigestsOrdered(PromptsOf(ys));
  }

  /** Both runs show something of the action exactly if both have it, and then each as it is. */
  lemma SnapshotForShows(xs: seq<Interaction>, key: string)
    ensures SnapshotFor(xs, key).Some? <==> key in KeysOf(xs)
    ensures SnapshotFor(xs, key).Some? ==> Shows(SnapshotFor(xs, key).value, Of(xs, key))
  {
    OfIs(xs, key);
    if Of(xs, key) != [] {
      SnapshotShows(Of(xs, key));
    }
  }

  /** The kind of change that lies between what the two runs show. */
  predicate IsChange(kind: Kind, b: Option<Snapshot>, d: Option<Snapshot>) {
    match kind
    case NewAction => b.None? && d.Some?
    case RemovedAction => b.Some? && d.None?
    case EffectChanged => b.Some? && d.Some? && b.value.effect != d.value.effect
    case TiersChanged => b.Some? && d.Some? && b.value.tiers != d.value.tiers
    case ModelsChanged => b.Some? && d.Some? && b.value.models != d.value.models
    case PromptsChanged => b.Some? && d.Some? && b.value.prompts != d.value.prompts
  }

  /** What a change says of the action with its key. */
  ghost predicate Says(base: seq<Interaction>, candidate: seq<Interaction>, c: Change) {
    && c.base == SnapshotFor(base, c.key) && c.candidate == SnapshotFor(candidate, c.key)
    && IsChange(c.kind, c.base, c.candidate)
  }

  lemma DifferencesAre(key: string, b: Option<Snapshot>, d: Option<Snapshot>, c: Change)
    ensures c in Differences(key, b, d) <==> c == Change(c.kind, key, b, d) && IsChange(c.kind, b, d)
  {
  }

  lemma DifferenceSays(base: seq<Interaction>, candidate: seq<Interaction>, key: string, c: Change)
    ensures c in ChangesAt(base, candidate)(key) <==> c.key == key && Says(base, candidate, c)
  {
    var b, d := SnapshotFor(base, key), SnapshotFor(candidate, key);
    DifferencesAre(key, b, d, c);
  }

  /** A change is reported exactly if what it says of its action is the case. */
  lemma ChangeIff(base: seq<Interaction>, candidate: seq<Interaction>, c: Change)
    ensures c in RunChanges(base, candidate) <==> Says(base, candidate, c)
  {
    var keys := OrderedKeys(base, candidate);
    OrderedKeysAre(base, candidate);
    GatherMembers(keys, ChangesAt(base, candidate), c);
    forall key
      ensures c in ChangesAt(base, candidate)(key) <==> c.key == key && Says(base, candidate, c)
    {
      DifferenceSays(base, candidate, key, c);
    }
    SnapshotForShows(base, c.key);
    SnapshotForShows(candidate, c.key);
  }

  /** The order of the changes of one action. */
  function Turn(k: Kind): nat {
    match k
    case NewAction => 0
    case RemovedAction => 1
    case EffectChanged => 2
    case TiersChanged => 3
    case ModelsChanged => 4
    case PromptsChanged => 5
  }

  /** Where an action first appears, in the base run if it is there. */
  function Appears(c: Change): int {
    if c.base.Some? then c.base.value.first else if c.candidate.Some? then c.candidate.value.first else 0
  }

  predicate Before(c: Change, d: Change) {
    if c.key == d.key then Turn(c.kind) < Turn(d.kind)
    else Appears(c) < Appears(d) || (Appears(c) == Appears(d) && StrLe(c.key, d.key))
  }

  /** The changes of one action come in turn. */
  ghost predicate Turns(cs: seq<Change>, key: string, first: int) {
    && (forall k | 0 <= k < |cs| :: cs[k].key == key && Appears(cs[k]) == first)
    && (forall j, k | 0 <= j < k < |cs| :: Turn(cs[j].kind) < Turn(cs[k].kind))
  }

  ghost function First(base: seq<Interaction>, candidate: seq<Interaction>): string -> int {
    key => SortSequence(SnapshotFor(base, key), SnapshotFor(candidate, key))
  }

  lemma DifferencesTurn(key: string, b: Option<Snapshot>, d: Option<Snapshot>)
    ensures Turns(Differences(key, b, d), key, SortSequence(b, d))
  {
  }

  lemma KeyTurns(base: seq<Interaction>, candidate: seq<Interaction>, key: string)
    ensures Turns(ChangesAt(base, candidate)(key), key, First(base, candidate)(key))
  {
    DifferencesTurn(key, SnapshotFor(base, key), SnapshotFor(candidate, key));
  }

  predicate Earlier(first: string -> int, j: string, k: string) {
    first(j) < first(k) || (first(j) == first(k) && StrLe(j, k))
  }

  /** The changes are about these keys, and come in the order of their first appearance. */
  ghost predicate InOrder(cs: seq<Change>, keys: seq<string>, first: string -> int) {
    && (forall k | 0 <= k < |cs| :: cs[k].key in keys && Appears(cs[k]) == first(cs[k].key))
    && (forall j, k | 0 <= j < k < |cs| :: Before(cs[j], cs[k]))
  }

  ghost predicate KeysInOrder(keys: seq<string>, first: string -> int) {
    NoRepeats(keys) && forall i, j | 0 <= i < j < |keys| :: Earlier(first, keys[i], keys[j])
  }

  lemma {:induction false} GatheredInTurn(keys: seq<string>, at: string -> seq<Change>, first: string -> int)
    requires KeysInOrder(keys, first)
    requires forall key | key in keys :: Turns(at(key), key, first(key))
    ensures InOrder(Gather(keys, at), keys, first)
  {
    if keys != [] {
      var front, key := keys[..|keys| - 1], keys[|keys| - 1];
      assert key in keys && Turns(at(key), key, first(key));
      GatheredInTurn(front, at, first);
      LastInTurn(keys, Gather(front, at), at(key), first);
    }
  }

  lemma LastInTurn(keys: seq<string>, cs: seq<Change>, more: seq<Change>, first: string -> int)
    requires keys != [] && KeysInOrder(keys, first) && InOrder(cs, keys[..|keys| - 1], first)
    requires Turns(more, keys[|keys| - 1], first(keys[|keys| - 1]))
    ensures InOrder(cs + more, keys, first)
  {
    var key := keys[|keys| - 1];
    forall j | 0 <= j < |cs|
      ensures cs[j].key in keys && cs[j].key != key && Earlier(first, cs[j].key, key)
    {
      var i :| 0 <= i < |keys| - 1 && keys[..|keys| - 1][i] == cs[j].key;
      assert keys[i] == cs[j].key;
    }
  }

  lemma KeysOnce(base: seq<Interaction>, candidate: seq<Interaction>)
    ensures NoRepeats(OrderedKeys(base, candidate))
  {
    var all := KeysOf(base) + KeysOf(candidate);
    var keys := OrderedKeys(base, candidate);
    MembersAre(all);
    SortKeeps(Members(all), (j, k) => KeyBefore(base, candidate, j, k));
    forall i, j | 0 <= i < j < |keys|
      ensures keys[i] != keys[j]
    {
      assert multiset(all)[keys[i]] <= 1;
      if keys[i] == keys[j] {
        TwiceCounts(keys, i, j);
      }
    }
  }

  lemma KeysEarlier(base: seq<Interaction>, candidate: seq<Interaction>)
    ensures KeysInOrder(OrderedKeys(base, candidate), First(base, candidate))
  {
    KeysOnce(base, candidate);
    MembersAre(KeysOf(base) + KeysOf(candidate));
    KeyOrderIs(base, candidate, Members(KeysOf(base) + KeysOf(candidate)));
    var keys := OrderedKeys(base, candidate);
    forall i, j | 0 <= i < j < |keys|
      ensures Earlier(First(base, candidate), keys[i], keys[j])
    {
      assert KeyBefore(base, candidate, keys[i], keys[j]);
    }
  }

  /** The changes follow the first appearance of their actions; those of one action come in turn, each
      at most once. */
  lemma ChangesInOrder(base: seq<Interaction>, candidate: seq<Interaction>)
    ensures
      var cs := RunChanges(base, candidate);
      forall j, k | 0 <= j < k < |cs| :: Before(cs[j], cs[k])
  {
    var keys, at := OrderedKeys(base, candidate), ChangesAt(base, candidate);
    KeysEarlier(base, candidate);
    forall key
      ensures Turns(at(key), key, First(base, candidate)(key))
    {
      KeyTurns(base, candidate, key);
    }
    GatheredInTurn(keys, at, First(base, candidate));
  }

  /** Runs of one named session can be compared. */
  lemma ComparedIff(base: Run, candidate: Run)
    ensures Difference(base, candidate).Ok? <==> base.session == candidate.session && !Blank(base.session)
    ensures Difference(base, candidate) == Err(NoSession) <==> Blank(base.session) || Blank(candidate.session)
    ensures Difference(base, candidate).Ok? ==>
              Difference(base, candidate).value == RunChanges(base.interactions, candidate.interactions)
  {
  }
}
