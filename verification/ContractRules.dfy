/** When a contract file is refused, said over its fields. */
module ContractRules {
  import opened Actions
  import opened Contracts
  import opened GeneratedContracts
  import opened Results
  import opened Sorting
  import opened StringSets
  import opened Text

  /** The tiers are picked from the canonical list from left to right: `at` has their places. */
  ghost predicate Picked(tiers: seq<string>, at: seq<nat>) {
    && |at| == |tiers|
    && (forall i | 0 <= i < |at| :: at[i] < 4 && CANONICAL[at[i]] == tiers[i])
    && (forall i, j | 0 <= i < j < |at| :: at[i] < at[j])
  }

  lemma TierPlace(k: nat)
    requires k < 4
    ensures CANONICAL[k] in TIERS && TierIndex(CANONICAL[k]) == k
  {
    TiersListed(CANONICAL[k]);
    assert TIERS[k] == CANONICAL[k];
  }

  lemma InTiers(t: string)
    ensures t in TIERS <==> TierIndex(t) < 4
  {
    if TierIndex(t) < 4 {
      assert t == TIERS[TierIndex(t)];
    }
  }

  /** A list of tiers is valid exactly if it is picked from the canonical one. */
  lemma TiersValidIff(tiers: seq<string>)
    ensures ValidTiers(tiers) <==> exists at :: Picked(tiers, at)
  {
    if ValidTiers(tiers) {
      TiersPicked(tiers);
    }
    if at :| Picked(tiers, at) {
      forall i | 0 <= i < |tiers|
        ensures tiers[i] in TIERS && TierIndex(tiers[i]) == at[i]
      {
        TierPlace(at[i]);
      }
    }
  }

  lemma TiersPicked(tiers: seq<string>)
    requires ValidTiers(tiers)
    ensures exists at :: Picked(tiers, at)
  {
    var at := Map(tiers, TierIndex);
    forall i | 0 <= i < |tiers|
      ensures at[i] < 4 && CANONICAL[at[i]] == tiers[i]
    {
      assert tiers[i] in TIERS;
      InTiers(tiers[i]);
      TiersListed(tiers[i]);
    }
    forall i, j | 0 <= i < j < |at|
      ensures at[i] < at[j]
    {
      assert TierLe(tiers[i], tiers[j]) && tiers[i] != tiers[j];
    }
    assert Picked(tiers, at);
  }

  /** The selector names a tool alone, or a service and an operation. */
  predicate Named(who: Selector) {
    || (!Blank(who.tool) && Blank(who.service) && Blank(who.operation))
    || (Blank(who.tool) && !Blank(who.service) && !Blank(who.operation))
  }

  predicate Negative(amount: Option<real>) {
    amount.Some? && amount.value < 0.0
  }

  /** What is wrong with an action: its name, its effect, its tiers, its amount, an approval that is not
      wanted or comes from nowhere known, or a missing reason where one is needed. */
  ghost predicate BadAction(a: Action, needsReason: bool) {
    || !Named(a.who) || a.effect !in RISKS || (forall at :: !Picked(a.tiers, at)) || Negative(a.maxAmount)
    || (a.approval.Some?
        && (!a.requiresApproval || a.approval.value.source !in ["human", "system", "external"]))
    || (needsReason && Blank(a.reason))
  }

  lemma ActionRefusedIff(a: Action, needsReason: bool)
    ensures !ValidAction(a, needsReason) <==> BadAction(a, needsReason)
  {
    RanksAre(a.effect);
    TiersValidIff(a.tiers);
  }

  /** What is wrong with an override: likewise, and it has no id, changes nothing, gives no reason, or has
      an approval time that is none. */
  ghost predicate BadOverride(o: Override) {
    || Blank(o.id) || !Named(o.who) || (o.effect != "" && o.effect !in RISKS)
    || (forall at :: !Picked(o.tiers, at)) || Negative(o.maxAmount)
    || (o.effect == "" && |o.tiers| == 0 && o.requiresApproval == None && o.maxAmount == None)
    || Blank(o.reason) || o.approvedAt.BadStamp?
  }

  lemma OverrideRefusedIff(o: Override)
    ensures !ValidOverride(o) <==> BadOverride(o)
  {
    RanksAre(o.effect);
    TiersValidIff(o.tiers);
  }

  ghost predicate SomeBad(actions: seq<Action>, needsReason: bool) {
    exists a :: a in actions && BadAction(a, needsReason)
  }

  /** Two entries have one key. */
  ghost predicate TwiceNamed(actions: seq<Action>) {
    exists i, j :: 0 <= i < j < |actions| && Key(actions[i].who) == Key(actions[j].who)
  }

  lemma ActionsRefusedIff(actions: seq<Action>, needsReason: bool)
    ensures !ValidActions(actions, needsReason) <==> SomeBad(actions, needsReason)
  {
    forall a
      ensures !ValidAction(a, needsReason) <==> BadAction(a, needsReason)
    {
      ActionRefusedIff(a, needsReason);
    }
    if i :| 0 <= i < |actions| && !ValidAction(actions[i], needsReason) {
      assert actions[i] in actions;
    }
  }

  lemma TwiceNamedIff(f: File)
    ensures !NoRepeats(ActionKeys(f.allowed) + ActionKeys(f.restricted) + ActionKeys(f.forbidden)) <==>
            TwiceNamed(f.allowed + f.restricted + f.forbidden)
  {
    var keys := ActionKeys(f.allowed) + ActionKeys(f.restricted) + ActionKeys(f.forbidden);
    var all := f.allowed + f.restricted + f.forbidden;
    assert |keys| == |all| && forall i | 0 <= i < |all| :: keys[i] == Key(all[i].who);
  }

  lemma OverridesRefusedIff(os: seq<Override>)
    ensures !ValidOverrides(os, |os|) <==>
            || (exists o :: o in os && BadOverride(o))
            || (exists i, j :: 0 <= i < j < |os| && TrimSpace(os[i].id) == TrimSpace(os[j].id))
  {
    forall o
      ensures !ValidOverride(o) <==> BadOverride(o)
    {
      OverrideRefusedIff(o);
    }
    if i :| 0 <= i < |os| && !ValidOverride(os[i]) {
      assert os[i] in os;
    }
  }

  /** A contract is refused exactly if it has another version, no agent, a blank or repeated model, no
      actions, a bad one, one named twice in any lists, or a bad or repeated override. */
  lemma FileRefusedIff(f: File)
    ensures !ValidFile(f) <==>
            || f.version != "v1alpha1" || Blank(f.agent)
            || (exists i :: 0 <= i < |f.models| && Blank(f.models[i]))
            || (exists i, j :: 0 <= i < j < |f.models| && TrimSpace(f.models[i]) == TrimSpace(f.models[j]))
            || |f.allowed| + |f.restricted| + |f.forbidden| == 0
            || SomeBad(f.allowed, false) || SomeBad(f.restricted, false) || SomeBad(f.forbidden, true)
            || TwiceNamed(f.allowed + f.restricted + f.forbidden)
            || (exists o :: o in f.overrides && BadOverride(o))
            || (exists i, j ::
                  0 <= i < j < |f.overrides| && TrimSpace(f.overrides[i].id) == TrimSpace(f.overrides[j].id))
  {
    ActionsRefusedIff(f.allowed, false);
    ActionsRefusedIff(f.restricted, false);
    ActionsRefusedIff(f.forbidden, true);
    TwiceNamedIff(f);
    OverridesRefusedIff(f.overrides);
    assert |f.allowed + f.restricted + f.forbidden| == |f.allowed| + |f.restricted| + |f.forbidden|;
  }
}
