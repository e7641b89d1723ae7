/** What a generated contract says about the actions of its run, entry by entry. */
module GeneratedContracts {
  import opened Actions
  import opened ContractGenerator
  import opened Contracts
  import opened KeyOrder
  import opened Results
  import opened Sorting
  import opened Text

  /** The side effects from the least risky to the riskiest. */
  const RISKS := ["read", "write", "external_message", "financial", "destructive", "unknown"]

  const CANONICAL := ["exact", "nearest_neighbor", "state_synthesis", "llm_synthesis"]

  /** Both are listed, a not before b. */
  predicate NotBefore(listed: seq<string>, a: string, b: string) {
    exists i, j :: 0 <= j <= i < |listed| && listed[i] == a && listed[j] == b
  }

  lemma RanksAre(a: string)
    ensures Rank(a) > 0 <==> a in RISKS
    ensures Rank(a) > 0 ==> RISKS[Rank(a) - 1] == a
  {
  }

  lemma TiersListed(a: string)
    ensures TierIndex(a) < 4 <==> a in CANONICAL
    ensures TierIndex(a) < 4 ==> CANONICAL[TierIndex(a)] == a
  {
  }

  lemma NotSafer(a: string, b: string)
    requires Rank(a) >= Rank(b) > 0
    ensures NotBefore(RISKS, a, b)
  {
    RanksAre(a);
    RanksAre(b);
    assert 0 <= Rank(b) - 1 <= Rank(a) - 1 < |RISKS|;
  }

  /** The effect is the riskiest one known of the interactions, or unknown if none is known. */
  ghost predicate Riskiest(effect: string, ys: seq<Interaction>, classify: Classifier) {
    if exists y :: y in ys && classify(y) in RISKS then
      && (exists y :: y in ys && classify(y) == effect)
      && (forall y | y in ys && classify(y) in RISKS :: NotBefore(RISKS, effect, classify(y)))
    else effect == "unknown"
  }

  /** The known tiers used, each once, in canonical order. */
  ghost predicate TiersUsed(tiers: seq<string>, ys: seq<Interaction>) {
    && (forall t :: t in tiers <==> t in CANONICAL && exists y :: y in ys && y.tier == t)
    && (forall i, j | 0 <= i < j < |tiers| :: tiers[i] != tiers[j] && NotBefore(CANONICAL, tiers[j], tiers[i]))
  }

  ghost predicate Greatest(amount: Option<real>, ys: seq<Interaction>) {
    match amount
    case None => forall y | y in ys :: y.amount.None?
    case Some(top) =>
      && (exists y :: y in ys && y.amount == Some(top))
      && (forall y | y in ys && y.amount.Some? :: y.amount.value <= top)
  }

  /** The entry of an action with these interactions. */
  ghost predicate Describes(a: Action, ys: seq<Interaction>, classify: Classifier) {
    && ys != [] && SelectorOf(ys[0]) == Some(a.who)
    && Riskiest(a.effect, ys, classify) && TiersUsed(a.tiers, ys) && Greatest(a.maxAmount, ys)
    && (a.requiresApproval <==>
          a.effect == "external_message" || a.effect == "financial" || a.effect == "destructive" || a.effect == "unknown")
    && a.approval == None && a.reason == ""
  }

  lemma TopIsRiskiest(ys: seq<Interaction>, classify: Classifier)
    ensures
      var top := TopEffect(ys, classify);
      Riskiest(if top == "" then "unknown" else top, ys, classify)
  {
    var top := TopEffect(ys, classify);
    TopEffectIs(ys, classify);
    forall y | y in ys
      ensures classify(y) in RISKS <==> Rank(classify(y)) > 0
      ensures classify(y) in RISKS ==> NotBefore(RISKS, top, classify(y))
    {
      RanksAre(classify(y));
      if classify(y) in RISKS {
        NotSafer(top, classify(y));
      }
    }
    assert Rank("") == 0;
  }

  lemma TiersAreUsed(ys: seq<Interaction>)
    ensures TiersUsed(TiersOf(ys), ys)
  {
    var tiers := TiersOf(ys);
    TiersAre(ys);
    forall i, j | 0 <= i < j < |tiers|
      ensures NotBefore(CANONICAL, tiers[j], tiers[i])
    {
      assert tiers[i] in tiers && tiers[j] in tiers && TierLe(tiers[i], tiers[j]);
      TiersListed(tiers[i]);
      TiersListed(tiers[j]);
    }
  }

  lemma EntryDescribes(xs: seq<Interaction>, classify: Classifier, key: string)
    requires key in KeysOf(xs)
    ensures Describes(ActionFor(xs, classify, key), Of(xs, key), classify)
  {
    var ys := Of(xs, key);
    OfSelected(xs, key);
    TopIsRiskiest(ys, classify);
    TiersAreUsed(ys);
    MaxAmountIs(ys);
  }

  lemma EntriesAre(xs: seq<Interaction>, classify: Classifier, a: Action)
    ensures a in ActionsFor(xs, classify) <==> exists key :: key in KeysOf(xs) && a == ActionFor(xs, classify, key)
  {
    var keys := Listed(KeysOf(xs));
    ListedAre(KeysOf(xs));
    var all := ActionsFor(xs, classify);
    if a in all {
      var i :| 0 <= i < |all| && all[i] == a;
      assert keys[i] in keys;
    }
    if key :| key in KeysOf(xs) && a == ActionFor(xs, classify, key) {
      var i :| 0 <= i < |keys| && keys[i] == key;
      assert all[i] == a;
    }
  }

  /** The entries of a generated contract describe the actions of the run, one each: the reading ones are
      allowed and all others restricted. */
  lemma GeneratedDescribes(name: string, session: string, xs: seq<Interaction>, classify: Classifier, key: string)
    ensures
      var f := Generated(name, session, xs, classify);
      && f.forbidden == [] && f.overrides == [] && f.version == "v1alpha1"
      && f.agent == (if TrimSpace(name) == "" then session else TrimSpace(name))
      && ((exists a :: a in f.allowed + f.restricted && Key(a.who) == key) <==> key in KeysOf(xs))
      && (forall a | a in f.allowed + f.restricted && Key(a.who) == key ::
            && Describes(a, Of(xs, key), classify)
            && (a in f.allowed <==> a.effect == "read") && (a in f.restricted <==> a.effect != "read"))
  {
    var f := Generated(name, session, xs, classify);
    var all := ActionsFor(xs, classify);
    FilterIs(all, IsRead);
    FilterIs(all, IsRestricted);
    forall a
      ensures a in f.allowed + f.restricted <==> a in all
      ensures a in all && Key(a.who) == key ==>
                key in KeysOf(xs) && a == ActionFor(xs, classify, key)
    {
      EntriesAre(xs, classify, a);
      if a in all {
        var k :| k in KeysOf(xs) && a == ActionFor(xs, classify, k);
        OfSelected(xs, k);
      }
    }
    if key in KeysOf(xs) {
      OfSelected(xs, key);
      EntryDescribes(xs, classify, key);
      EntriesAre(xs, classify, ActionFor(xs, classify, key));
      assert ActionFor(xs, classify, key) in all;
    }
  }

  predicate KeyLe(a: Action, b: Action) {
    StrLe(Key(a.who), Key(b.who))
  }

  /** The keys of the entries ascend, so no action has two. */
  ghost predicate Ascending(actions: seq<Action>) {
    forall i, j | 0 <= i < j < |actions| :: KeyLe(actions[i], actions[j]) && actions[i] != actions[j]
  }

  lemma EntryKey(xs: seq<Interaction>, classify: Classifier, key: string)
    requires key in KeysOf(xs)
    ensures Key(ActionFor(xs, classify, key).who) == key
  {
    OfSelected(xs, key);
  }

  lemma AllAscend(xs: seq<Interaction>, classify: Classifier)
    ensures Ascending(ActionsFor(xs, classify))
  {
    var keys, all := Listed(KeysOf(xs)), ActionsFor(xs, classify);
    ListedAre(KeysOf(xs));
    StrLePreorder();
    SortSorted(Members(KeysOf(xs)), StrLe);
    forall i | 0 <= i < |all|
      ensures Key(all[i].who) == keys[i]
    {
      assert keys[i] in keys;
      EntryKey(xs, classify, keys[i]);
    }
  }

  /** The entries of either list come by key. */
  lemma EntriesAscend(name: string, session: string, xs: seq<Interaction>, classify: Classifier)
    ensures
      var f := Generated(name, session, xs, classify);
      Ascending(f.allowed) && Ascending(f.restricted)
  {
    AllAscend(xs, classify);
    FilterSorted(ActionsFor(xs, classify), IsRead, KeyLe);
    FilterSorted(ActionsFor(xs, classify), IsRestricted, KeyLe);
  }

  /** The models listed are those of the interactions that name an action, each once, in order. */
  lemma ModelsListed(name: string, session: string, xs: seq<Interaction>, classify: Classifier, m: string)
    ensures
      var models := Generated(name, session, xs, classify).models;
      && (m in models <==>
            exists x, raw :: x in xs && KeyOf(x).Some? && raw in x.models && !Blank(raw) && m == TrimSpace(raw))
      && forall i, j | 0 <= i < j < |models| :: models[i] != models[j] && StrLe(models[i], models[j])
  {
    ListedAre(SeenModels(xs));
    StrLePreorder();
    SortSorted(Members(SeenModels(xs)), StrLe);
  }

  /** The entries of unknown risk are counted as such. */
  lemma {:induction false} UnknownCounted(actions: seq<Action>)
    ensures |Filter(actions, IsUnknown)| == |OfUnknownRisk(actions)|
  {
    if actions != [] {
      var front, last := actions[..|actions| - 1], actions[|actions| - 1];
      UnknownCounted(front);
      if last.effect == "unknown" {
        assert OfUnknownRisk(actions) == OfUnknownRisk(front) + {|front|};
      } else {
        assert OfUnknownRisk(actions) == OfUnknownRisk(front);
      }
    }
  }

  function OfUnknownRisk(actions: seq<Action>): set<nat> {
    set i | 0 <= i < |actions| && actions[i].effect == "unknown"
  }
}
