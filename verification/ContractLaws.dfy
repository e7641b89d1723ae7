/** A generated contract against the run it came from, and when it is valid. */
module ContractLaws {
  import opened Actions
  import opened ContractEnforcer
  import opened ContractGenerator
  import opened Contracts
  import opened KeyOrder
  import opened Results
  import opened Sorting
  import opened StringSets
  import opened Text

  // ------------------------------------------------------ the entries made

  lemma ActionForIs(xs: seq<Interaction>, classify: Classifier, key: string)
    requires key in KeysOf(xs)
    ensures
      var a := ActionFor(xs, classify, key);
      && Key(a.who) == key && Rank(a.effect) > 0 && ValidTiers(a.tiers) && a.approval.None?
      && a.maxAmount == MaxAmount(Of(xs, key))
      && a.requiresApproval == NeedsApproval(a.effect)
  {
    OfSelected(xs, key);
    var acc := AccumulatedFor(xs, classify, key);
    TopEffectRanks(Of(xs, key), classify);
    TiersValid(Of(xs, key));
    FinishedIs(acc);
  }

  lemma FinishedIs(acc: Accumulator)
    requires acc.effect == "" || Rank(acc.effect) > 0
    ensures
      var a := Finished(acc);
      && a.who == acc.who && a.tiers == acc.tiers && a.maxAmount == acc.maxAmount && a.approval.None?
      && Rank(a.effect) > 0 && a.requiresApproval == NeedsApproval(a.effect)
  {
    if acc.effect == "" {
      assert Rank("unknown") == 6;
    }
  }

  lemma TopEffectRanks(ys: seq<Interaction>, classify: Classifier)
    ensures TopEffect(ys, classify) == "" || Rank(TopEffect(ys, classify)) > 0
  {
    TopEffectIs(ys, classify);
  }

  lemma TiersValid(ys: seq<Interaction>)
    ensures ValidTiers(TiersOf(ys))
  {
    TiersAre(ys);
    forall i | 0 <= i < |TiersOf(ys)|
      ensures TiersOf(ys)[i] in TIERS
    {
      assert TiersOf(ys)[i] in TiersOf(ys);
    }
  }

  lemma SelectorValid(x: Interaction)
    requires SelectorOf(x).Some?
    ensures ValidSelector(SelectorOf(x).value)
  {
    TrimIdempotent(x.operation);
    TrimIdempotent(x.bodyName);
    TrimIdempotent(x.service);
  }

  lemma ActionForValid(xs: seq<Interaction>, classify: Classifier, key: string)
    requires key in KeysOf(xs)
    ensures ValidAction(ActionFor(xs, classify, key), false) <==>
            (MaxAmount(Of(xs, key)).Some? ==> MaxAmount(Of(xs, key)).value >= 0.0)
  {
    ActionForIs(xs, classify, key);
    OfSelected(xs, key);
    SelectorValid(Of(xs, key)[0]);
  }

  /** One entry for every action, none twice. */
  lemma ActionsForAre(xs: seq<Interaction>, classify: Classifier)
    ensures forall a: Action :: a in ActionsFor(xs, classify) <==>
                        Key(a.who) in KeysOf(xs) && a == ActionFor(xs, classify, Key(a.who))
    ensures NoRepeats(ActionsFor(xs, classify))
  {
    var keys, actions := Listed(KeysOf(xs)), ActionsFor(xs, classify);
    ListedAre(KeysOf(xs));
    forall i | 0 <= i < |keys|
      ensures keys[i] in KeysOf(xs) && actions[i] == ActionFor(xs, classify, keys[i]) && Key(actions[i].who) == keys[i]
    {
      assert keys[i] in keys;
      ActionForIs(xs, classify, keys[i]);
    }
    forall a: Action | Key(a.who) in KeysOf(xs) && a == ActionFor(xs, classify, Key(a.who))
      ensures a in actions
    {
      assert Key(a.who) in keys;
      var i :| 0 <= i < |keys| && keys[i] == Key(a.who);
      assert actions[i] == a;
    }
  }

  lemma GeneratedEntries(name: string, session: string, xs: seq<Interaction>, classify: Classifier)
    ensures
      var f := Generated(name, session, xs, classify);
      && NoRepeats(f.allowed) && NoRepeats(f.restricted)
      && (forall a :: a in f.allowed <==> a in ActionsFor(xs, classify) && IsRead(a))
      && (forall a :: a in f.restricted <==> a in ActionsFor(xs, classify) && IsRestricted(a))
  {
    var actions := ActionsFor(xs, classify);
    ActionsForAre(xs, classify);
    FilterIs(actions, IsRead);
    FilterIs(actions, IsRestricted);
    FilterSorted(actions, IsRead, (a, b) => true);
    FilterSorted(actions, IsRestricted, (a, b) => true);
  }

  // ------------------------------------------------------ enforced on its own run

  lemma {:induction false} LookupIs(actions: seq<Action>, key: string)
    ensures
      match Lookup(actions, key)
      case None => forall a | a in actions :: Key(a.who) != key
      case Some(a) => a in actions && Key(a.who) == key
  {
    if actions != [] {
      LookupIs(actions[..|actions| - 1], key);
      assert actions == actions[..|actions| - 1] + [actions[|actions| - 1]];
    }
  }

  /** Every named action of the run is found in the contract, as the entry made for it. */
  lemma LookupGenerated(name: string, session: string, xs: seq<Interaction>, classify: Classifier, key: string)
    requires key in KeysOf(xs)
    ensures
      var f, a := Generated(name, session, xs, classify), ActionFor(xs, classify, key);
      && Lookup(f.forbidden, key) == None
      && Lookup(f.restricted, key) == (if IsRead(a) then None else Some(a))
      && (IsRead(a) ==> Lookup(f.allowed, key) == Some(a))
  {
    var f, a := Generated(name, session, xs, classify), ActionFor(xs, classify, key);
    GeneratedEntries(name, session, xs, classify);
    ActionsForAre(xs, classify);
    ActionForIs(xs, classify, key);
    LookupIs(f.restricted, key);
    LookupIs(f.allowed, key);
    assert a in ActionsFor(xs, classify);
  }

  /** A named interaction of the run is at fault exactly when the action's highest risk calls for an
      approval and the interaction shows none; nothing is forbidden and nothing is new. */
  lemma OwnRunJudged(name: string, session: string, xs: seq<Interaction>, classify: Classifier, x: Interaction)
    requires x in xs
    ensures
      var f := Generated(name, session, xs, classify);
      Judge(f, x) ==
      match KeyOf(x)
      case None => None
      case Some(key) =>
        if NeedsApproval(ActionFor(xs, classify, key).effect) && !x.approved then Some(Finding(ApprovalMissing, key))
        else None
  {
    if KeyOf(x).Some? {
      var key := KeyOf(x).value;
      assert key in KeysOf(xs);
      LookupGenerated(name, session, xs, classify, key);
      ActionForIs(xs, classify, key);
    }
  }

  predicate Unapproved(x: Interaction) {
    !x.approved
  }

  /** Enforcing the generated contract on its own run reports only missing approvals: for each action
      that needs one and lacks it somewhere one violation, with exactly the unapproved interactions of
      that action as evidence, in run order. */
  lemma OwnRunOnlyLacksApproval(name: string, session: string, xs: seq<Interaction>, classify: Classifier)
    ensures
      var f := Generated(name, session, xs, classify);
      && NoRepeats(Findings(f, xs))
      && (forall p | p in Findings(f, xs) ::
            && p.kind == ApprovalMissing && p.key in KeysOf(xs)
            && NeedsApproval(ActionFor(xs, classify, p.key).effect)
            && Report(f, xs, p).evidence == Filter(Of(xs, p.key), Unapproved))
      && (forall x | x in xs && KeyOf(x).Some? && !x.approved
            && NeedsApproval(ActionFor(xs, classify, KeyOf(x).value).effect) ::
            Finding(ApprovalMissing, KeyOf(x).value) in Findings(f, xs))
  {
    var f := Generated(name, session, xs, classify);
    FindingsAre(f, xs);
    forall p | p in Findings(f, xs)
      ensures p.kind == ApprovalMissing && p.key in KeysOf(xs)
      ensures NeedsApproval(ActionFor(xs, classify, p.key).effect)
      ensures Report(f, xs, p).evidence == Filter(Of(xs, p.key), Unapproved)
    {
      OwnFinding(name, session, xs, classify, p);
    }
    forall x | x in xs && KeyOf(x).Some? && !x.approved && NeedsApproval(ActionFor(xs, classify, KeyOf(x).value).effect)
      ensures Finding(ApprovalMissing, KeyOf(x).value) in Findings(f, xs)
    {
      OwnRunJudged(name, session, xs, classify, x);
    }
  }

  lemma OwnFinding(name: string, session: string, xs: seq<Interaction>, classify: Classifier, p: Finding)
    requires p in Findings(Generated(name, session, xs, classify), xs)
    ensures p.kind == ApprovalMissing && p.key in KeysOf(xs)
    ensures NeedsApproval(ActionFor(xs, classify, p.key).effect)
    ensures Report(Generated(name, session, xs, classify), xs, p).evidence == Filter(Of(xs, p.key), Unapproved)
  {
    var f := Generated(name, session, xs, classify);
    FindingsAre(f, xs);
    var x :| x in xs && Judge(f, x) == Some(p);
    OwnRunJudged(name, session, xs, classify, x);
    forall y | y in xs
      ensures Judge(f, y) == Some(p) <==> KeyOf(y) == Some(p.key) && !y.approved
    {
      OwnRunJudged(name, session, xs, classify, y);
    }
    FilterTwice(xs, y => KeyOf(y) == Some(p.key), Unapproved, y => Judge(f, y) == Some(p));
  }

  lemma {:induction false} FilterTwice<T(!new)>(xs: seq<T>, f: T -> bool, g: T -> bool, both: T -> bool)
    requires forall x | x in xs :: both(x) == (f(x) && g(x))
    ensures Filter(Filter(xs, f), g) == Filter(xs, both)
  {
    if xs != [] {
      var front, last := xs[..|xs| - 1], xs[|xs| - 1];
      assert xs == front + [last];
      FilterTwice(front, f, g, both);
      FilterSnoc(Filter(front, f), last, g);
      assert Filter(front, f) + [] == Filter(front, f);
    }
  }

  // ------------------------------------------------------------- when it is valid

  ghost predicate AmountsNotNegative(xs: seq<Interaction>) {
    forall key | key in KeysOf(xs) :: MaxAmount(Of(xs, key)).Some? ==> MaxAmount(Of(xs, key)).value >= 0.0
  }

  lemma ModelsValid(xs: seq<Interaction>)
    ensures ValidSet(Listed(SeenModels(xs)))
  {
    var ms := Listed(SeenModels(xs));
    ListedAre(SeenModels(xs));
    forall i | 0 <= i < |ms|
      ensures TrimSpace(ms[i]) == ms[i] && !Blank(ms[i])
    {
      assert ms[i] in ms;
      var x, m :| x in xs && KeyOf(x).Some? && m in x.models && !Blank(m) && TrimSpace(m) == ms[i];
      TrimIdempotent(m);
    }
  }

  lemma KeysOfEntriesDiffer(name: string, session: string, xs: seq<Interaction>, classify: Classifier)
    ensures
      var f := Generated(name, session, xs, classify);
      NoRepeats(ActionKeys(f.allowed) + ActionKeys(f.restricted) + ActionKeys(f.forbidden))
  {
    var f := Generated(name, session, xs, classify);
    GeneratedEntries(name, session, xs, classify);
    Joined(f.allowed, f.restricted);
    EntriesDiffer(xs, classify, f.allowed + f.restricted);
    KeysDiffer(f.allowed, f.restricted);
    assert ActionKeys(f.forbidden) == [];
    assert ActionKeys(f.allowed) + ActionKeys(f.restricted) + [] == ActionKeys(f.allowed) + ActionKeys(f.restricted);
  }

  lemma EntriesDiffer(xs: seq<Interaction>, classify: Classifier, all: seq<Action>)
    requires NoRepeats(all) && forall a | a in all :: a in ActionsFor(xs, classify)
    ensures forall i, j | 0 <= i < j < |all| :: Key(all[i].who) != Key(all[j].who)
  {
    ActionsForAre(xs, classify);
    forall i, j | 0 <= i < j < |all|
      ensures Key(all[i].who) != Key(all[j].who)
    {
      assert all[i] in all && all[j] in all && all[i] != all[j];
    }
  }

  lemma KeysDiffer(xs: seq<Action>, ys: seq<Action>)
    requires forall i, j | 0 <= i < j < |xs + ys| :: Key((xs + ys)[i].who) != Key((xs + ys)[j].who)
    ensures NoRepeats(ActionKeys(xs) + ActionKeys(ys))
  {
    var keys := ActionKeys(xs) + ActionKeys(ys);
    forall i, j | 0 <= i < j < |keys|
      ensures keys[i] != keys[j]
    {
      assert keys[i] == Key((xs + ys)[i].who) && keys[j] == Key((xs + ys)[j].who);
    }
  }

  /** A generated contract is valid exactly when the agent has a name, some interaction names an
      action, and no action's greatest amount is negative. */
  lemma GeneratedValidIff(name: string, session: string, xs: seq<Interaction>, classify: Classifier)
    ensures ValidFile(Generated(name, session, xs, classify)) <==>
            (!Blank(name) || !Blank(session)) && KeysOf(xs) != {} && AmountsNotNegative(xs)
  {
    var f := Generated(name, session, xs, classify);
    TrimIdempotent(name);
    ModelsValid(xs);
    KeysOfEntriesDiffer(name, session, xs, classify);
    GeneratedEntries(name, session, xs, classify);
    ActionsForAre(xs, classify);
    EntriesValid(name, session, xs, classify);
    SomeEntry(name, session, xs, classify);
  }

  lemma SomeEntry(name: string, session: string, xs: seq<Interaction>, classify: Classifier)
    ensures
      var f := Generated(name, session, xs, classify);
      f.allowed + f.restricted + f.forbidden != [] <==> KeysOf(xs) != {}
  {
    var f := Generated(name, session, xs, classify);
    GeneratedEntries(name, session, xs, classify);
    ActionsForAre(xs, classify);
    if key :| key in KeysOf(xs) {
      ActionForIs(xs, classify, key);
      assert ActionFor(xs, classify, key) in f.allowed || ActionFor(xs, classify, key) in f.restricted;
    }
    if f.allowed != [] {
      assert f.allowed[0] in f.allowed;
    }
    if f.restricted != [] {
      assert f.restricted[0] in f.restricted;
    }
  }

  lemma EntriesValid(name: string, session: string, xs: seq<Interaction>, classify: Classifier)
    ensures
      var f := Generated(name, session, xs, classify);
      ValidActions(f.allowed, false) && ValidActions(f.restricted, false) <==> AmountsNotNegative(xs)
  {
    var f := Generated(name, session, xs, classify);
    GeneratedEntries(name, session, xs, classify);
    ActionsForAre(xs, classify);
    forall a | a in f.allowed || a in f.restricted
      ensures Key(a.who) in KeysOf(xs)
      ensures ValidAction(a, false) <==>
              (MaxAmount(Of(xs, Key(a.who))).Some? ==> MaxAmount(Of(xs, Key(a.who))).value >= 0.0)
    {
      ActionForValid(xs, classify, Key(a.who));
    }
    if ValidActions(f.allowed, false) && ValidActions(f.restricted, false) {
      forall key | key in KeysOf(xs)
        ensures MaxAmount(Of(xs, key)).Some? ==> MaxAmount(Of(xs, key)).value >= 0.0
      {
        var a := ActionFor(xs, classify, key);
        ActionForIs(xs, classify, key);
        ActionForValid(xs, classify, key);
        assert a in f.allowed || a in f.restricted;
      }
    }
    if AmountsNotNegative(xs) {
      forall i | 0 <= i < |f.allowed|
        ensures ValidAction(f.allowed[i], false)
      {
        assert f.allowed[i] in f.allowed;
      }
      forall i | 0 <= i < |f.restricted|
        ensures ValidAction(f.restricted[i], false)
      {
        assert f.restricted[i] in f.restricted;
      }
    }
  }
}
