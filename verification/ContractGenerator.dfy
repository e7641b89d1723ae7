/** Generating a contract from a run: what the run shows about each action becomes one entry. */
module ContractGenerator {
  import opened Actions
  import opened Contracts
  import opened KeyOrder
  import opened Results
  import opened Sorting
  import opened Text

  /** What is known about one action so far. */
  datatype Accumulator =
    Accumulator(who: Selector, effect: string, tiers: seq<string>, maxAmount: Option<real>)

  datatype Summary = Summary(allowed: nat, restricted: nat, unknownRisk: nat)

  predicate NeedsApproval(effect: string) {
    effect in {"financial", "destructive", "external_message", "unknown"}
  }

  // --------------------------------------------------- what should come out

  ghost function Accumulated(ys: seq<Interaction>, classify: Classifier): Accumulator
    requires ys != [] && SelectorOf(ys[0]).Some?
  {
    Accumulator(SelectorOf(ys[0]).value, TopEffect(ys, classify), TiersOf(ys), MaxAmount(ys))
  }

  function Finished(a: Accumulator): Action {
    var effect := if a.effect == "" then "unknown" else a.effect;
    Action(a.who, effect, a.tiers, effect != "read" && NeedsApproval(effect), None, a.maxAmount, "")
  }

  lemma OfSelected(xs: seq<Interaction>, key: string)
    requires key in KeysOf(xs)
    ensures
      var ys := Of(xs, key);
      ys != [] && SelectorOf(ys[0]).Some? && Key(SelectorOf(ys[0]).value) == key
  {
    OfIs(xs, key);
    assert Of(xs, key)[0] in Of(xs, key);
  }

  ghost function AccumulatedFor(xs: seq<Interaction>, classify: Classifier, key: string): Accumulator
    requires key in KeysOf(xs)
  {
    OfSelected(xs, key);
    Accumulated(Of(xs, key), classify)
  }

  /** The entry of one action. */
  ghost function ActionFor(xs: seq<Interaction>, classify: Classifier, key: string): Action
    requires key in KeysOf(xs)
  {
    Finished(AccumulatedFor(xs, classify, key))
  }

  ghost function ActionsFor(xs: seq<Interaction>, classify: Classifier): seq<Action> {
    var keys := Listed(KeysOf(xs));
    ListedAre(KeysOf(xs));
    seq(|keys|, i requires 0 <= i < |keys| => ActionFor(xs, classify, keys[i]))
  }

  predicate IsRead(a: Action) {
    a.effect == "read"
  }

  predicate IsRestricted(a: Action) {
    a.effect != "read"
  }

  predicate IsUnknown(a: Action) {
    a.effect == "unknown"
  }

  /** The models of the interactions that name an action. */
  function SeenModels(xs: seq<Interaction>): set<string> {
    set x, m | x in xs && KeyOf(x).Some? && m in x.models && !Blank(m) :: TrimSpace(m)
  }

  /** The contract of a run: one entry for each action in key order, reading ones allowed and all
      others restricted. */
  ghost function Generated(name: string, session: string, xs: seq<Interaction>, classify: Classifier): File {
    File(VERSION, if Blank(name) then session else TrimSpace(name), Listed(SeenModels(xs)),
      Filter(ActionsFor(xs, classify), IsRead), Filter(ActionsFor(xs, classify), IsRestricted), [], [])
  }

  // --------------------------------------------------------------- the loops

  ghost predicate KnowsAt(accs: map<string, Accumulator>, xs: seq<Interaction>, classify: Classifier, key: string) {
    && (key in accs <==> key in KeysOf(xs))
    && (key in KeysOf(xs) ==> accs[key] == AccumulatedFor(xs, classify, key))
  }

  ghost predicate Knows(accs: map<string, Accumulator>, xs: seq<Interaction>, classify: Classifier) {
    forall key :: KnowsAt(accs, xs, classify, key)
  }

  function Extended(acc: Option<Accumulator>, x: Interaction, who: Selector, classify: Classifier): Accumulator {
    var a := if acc.Some? then acc.value else Accumulator(who, "", [], None);
    Accumulator(
      a.who,
      HigherRisk(a.effect, classify(x)),
      MoreTiers(a.tiers, x.tier),
      if x.amount.Some? && (a.maxAmount.None? || x.amount.value > a.maxAmount.value) then x.amount else a.maxAmount)
  }

  lemma NoTiers()
    ensures TiersOf([]) == []
  {
    FilterNone(TIERS, t => Uses([], t));
  }

  function MoreTiers(tiers: seq<string>, tier: string): seq<string> {
    Sort(if tier in TIERS && tier !in tiers then tiers + [tier] else tiers, TierLe)
  }

  lemma ExtendedFirst(x: Interaction, classify: Classifier)
    requires SelectorOf(x).Some?
    ensures Extended(None, x, SelectorOf(x).value, classify) == Accumulated([x], classify)
  {
    assert [x][..0] == [] && [] + [x] == [x];
    NoTiers();
    TiersSnoc([], x);
    assert MoreTiers([], x.tier) == TiersOf([x]);
    assert TopEffect([x], classify) == HigherRisk("", classify(x));
    assert MaxAmount([x]) == x.amount;
  }

  lemma ExtendedMore(ys: seq<Interaction>, x: Interaction, classify: Classifier)
    requires ys != [] && SelectorOf(ys[0]).Some?
    ensures SelectorOf((ys + [x])[0]).Some?
    ensures forall who :: Extended(Some(Accumulated(ys, classify)), x, who, classify) == Accumulated(ys + [x], classify)
  {
    assert (ys + [x])[..|ys|] == ys;
    TiersSnoc(ys, x);
    assert MoreTiers(TiersOf(ys), x.tier) == TiersOf(ys + [x]);
  }

  lemma KeysSnoc(xs: seq<Interaction>, x: Interaction)
    ensures KeysOf(xs + [x]) == KeysOf(xs) + if KeyOf(x).Some? then {KeyOf(x).value} else {}
  {
    assert forall y :: y in xs + [x] <==> y in xs || y == x;
  }

  lemma KnowsOther(
    accs: map<string, Accumulator>, accs': map<string, Accumulator>, xs: seq<Interaction>, x: Interaction,
    classify: Classifier, key: string)
    requires KnowsAt(accs, xs, classify, key) && KeyOf(x) != Some(key)
    requires (key in accs' <==> key in accs) && (key in accs ==> accs'[key] == accs[key])
    ensures KnowsAt(accs', xs + [x], classify, key)
  {
    KeysSnoc(xs, x);
    OfSnoc(xs, x, key);
    assert Of(xs + [x], key) == Of(xs, key);
    if key in KeysOf(xs) {
      assert AccumulatedFor(xs + [x], classify, key) == AccumulatedFor(xs, classify, key);
    }
  }

  lemma KnowsThis(
    accs: map<string, Accumulator>, xs: seq<Interaction>, x: Interaction, classify: Classifier, key: string)
    requires KnowsAt(accs, xs, classify, key) && KeyOf(x) == Some(key)
    ensures
      var acc := Extended(if key in accs then Some(accs[key]) else None, x, SelectorOf(x).value, classify);
      KnowsAt(accs[key := acc], xs + [x], classify, key)
  {
    KeysSnoc(xs, x);
    OfIs(xs, key);
    OfSnoc(xs, x, key);
    if key in KeysOf(xs) {
      OfSelected(xs, key);
      ExtendedMore(Of(xs, key), x, classify);
    } else {
      ExtendedFirst(x, classify);
      assert Of(xs + [x], key) == [x];
    }
  }

  lemma KnowsStep(accs: map<string, Accumulator>, xs: seq<Interaction>, x: Interaction, classify: Classifier)
    requires Knows(accs, xs, classify) && KeyOf(x).Some?
    ensures
      var key := KeyOf(x).value;
      var acc := Extended(if key in accs then Some(accs[key]) else None, x, SelectorOf(x).value, classify);
      Knows(accs[key := acc], xs + [x], classify)
  {
    var key := KeyOf(x).value;
    var acc := Extended(if key in accs then Some(accs[key]) else None, x, SelectorOf(x).value, classify);
    var accs', xs' := accs[key := acc], xs + [x];
    forall k: string
      ensures KnowsAt(accs', xs', classify, k)
    {
      assert KnowsAt(accs, xs, classify, k);
      if k == key {
        KnowsThis(accs, xs, x, classify, k);
      } else {
        KnowsOther(accs, accs', xs, x, classify, k);
      }
    }
  }

  lemma KnowsSkip(accs: map<string, Accumulator>, xs: seq<Interaction>, x: Interaction, classify: Classifier)
    requires Knows(accs, xs, classify) && KeyOf(x).None?
    ensures Knows(accs, xs + [x], classify)
  {
    var xs' := xs + [x];
    forall k: string
      ensures KnowsAt(accs, xs', classify, k)
    {
      assert KnowsAt(accs, xs, classify, k);
      KnowsOther(accs, accs, xs, x, classify, k);
    }
  }

  method Accumulate(xs: seq<Interaction>, classify: Classifier)
    returns (accs: map<string, Accumulator>, models: set<string>)
    ensures Knows(accs, xs, classify)
    ensures models == SeenModels(xs)
  {
    accs, models := map[], {};
    for n := 0 to |xs|
      invariant Knows(accs, xs[..n], classify)
      invariant models == SeenModels(xs[..n])
    {
      var x := xs[n];
      assert xs[..n + 1] == xs[..n] + [x];
      ModelsSnoc(xs[..n], x);
      var who := SelectorOf(x);
      if who.None? {
        KnowsSkip(accs, xs[..n], x, classify);
        continue;
      }
      var key := Key(who.value);
      KnowsStep(accs, xs[..n], x, classify);
      var acc := Extended(if key in accs then Some(accs[key]) else None, x, who.value, classify);
      accs := accs[key := acc];
      models := models + set m | m in x.models && !Blank(m) :: TrimSpace(m);
    }
    assert xs[..|xs|] == xs;
  }

  lemma ModelsSnoc(xs: seq<Interaction>, x: Interaction)
    ensures SeenModels(xs + [x]) ==
            SeenModels(xs) + if KeyOf(x).Some? then (set m | m in x.models && !Blank(m) :: TrimSpace(m)) else {}
  {
    assert forall y :: y in xs + [x] <==> y in xs || y == x;
  }

  lemma KnowsAll(accs: map<string, Accumulator>, xs: seq<Interaction>, classify: Classifier)
    requires Knows(accs, xs, classify)
    ensures accs.Keys == KeysOf(xs)
    ensures forall key | key in accs :: Finished(accs[key]) == ActionFor(xs, classify, key)
  {
    forall key: string
      ensures key in accs.Keys <==> key in KeysOf(xs)
      ensures key in accs ==> Finished(accs[key]) == ActionFor(xs, classify, key)
    {
      assert KnowsAt(accs, xs, classify, key);
    }
  }

  /** Sorts the entries into allowed and restricted ones. */
  method Divide(actions: seq<Action>) returns (allowed: seq<Action>, restricted: seq<Action>, unknown: nat)
    ensures allowed == Filter(actions, IsRead) && restricted == Filter(actions, IsRestricted)
    ensures unknown == |Filter(restricted, IsUnknown)|
  {
    allowed, restricted, unknown := [], [], 0;
    for n := 0 to |actions|
      invariant allowed == Filter(actions[..n], IsRead) && restricted == Filter(actions[..n], IsRestricted)
      invariant unknown == |Filter(restricted, IsUnknown)|
    {
      var action := actions[n];
      assert actions[..n + 1] == actions[..n] + [action];
      FilterSnoc(actions[..n], action, IsRead);
      FilterSnoc(actions[..n], action, IsRestricted);
      FilterSnoc(restricted, action, IsUnknown);
      if action.effect == "read" {
        allowed := allowed + [action];
      } else {
        restricted := restricted + [action];
        if action.effect == "unknown" {
          unknown := unknown + 1;
        }
      }
    }
    assert actions[..|actions|] == actions;
  }

  lemma FinishedAt(accs: map<string, Accumulator>, xs: seq<Interaction>, classify: Classifier, i: nat)
    requires accs.Keys == KeysOf(xs) && i < |Listed(KeysOf(xs))|
    requires forall key | key in accs :: Finished(accs[key]) == ActionFor(xs, classify, key)
    ensures Listed(KeysOf(xs))[i] in accs
    ensures Finished(accs[Listed(KeysOf(xs))[i]]) == ActionsFor(xs, classify)[i]
  {
    ListedAre(KeysOf(xs));
    assert Listed(KeysOf(xs))[i] in Listed(KeysOf(xs));
  }

  method Finish(
    accs: map<string, Accumulator>, keys: seq<string>, ghost want: seq<Action>) returns (actions: seq<Action>)
    requires |want| == |keys|
    requires forall i | 0 <= i < |keys| :: keys[i] in accs && Finished(accs[keys[i]]) == want[i]
    ensures actions == want
  {
    actions := [];
    for n := 0 to |keys|
      invariant actions == want[..n]
    {
      actions := actions + [Finished(accs[keys[n]])];
    }
  }

  method GenerateFromRun(name: string, session: string, xs: seq<Interaction>, classify: Classifier)
    returns (f: File, summary: Summary)
    ensures f == Generated(name, session, xs, classify)
    ensures summary == Summary(|f.allowed|, |f.restricted|, |Filter(f.restricted, IsUnknown)|)
  {
    var accs, seen := Accumulate(xs, classify);
    KnowsAll(accs, xs, classify);
    var keys := ListKeys(accs.Keys);
    var models := ListKeys(seen);
    forall i | 0 <= i < |keys|
      ensures keys[i] in accs && Finished(accs[keys[i]]) == ActionsFor(xs, classify)[i]
    {
      FinishedAt(accs, xs, classify, i);
    }
    var actions := Finish(accs, keys, ActionsFor(xs, classify));
    var allowed, restricted, unknown := Divide(actions);
    f := File(VERSION, if Blank(name) then session else TrimSpace(name), models, allowed, restricted, [], []);
    summary := Summary(|f.allowed|, |f.restricted|, unknown);
  }
}
