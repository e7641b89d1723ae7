/** Behaviour contracts: the file format and its rules. */
module Contracts {
  import opened Actions
  import opened Results
  import opened Sorting
  import opened StringSets
  import opened Text

  datatype Approval = Approval(source: string, evidencePath: string)

  datatype Action = Action(
    who: Selector, effect: string, tiers: seq<string>, requiresApproval: bool, approval: Option<Approval>,
    maxAmount: Option<real>, reason: string)

  /** An approval time: none, one that is no RFC 3339 text, or an instant. */
  datatype Stamp = NoStamp | BadStamp(text: string) | At(instant: int)

  datatype Override = Override(
    id: string, who: Selector, effect: string, tiers: seq<string>, requiresApproval: Option<bool>,
    maxAmount: Option<real>, reason: string, approvedBy: string, approvedAt: Stamp)

  datatype File = File(
    version: string, agent: string, models: seq<string>,
    allowed: seq<Action>, restricted: seq<Action>, forbidden: seq<Action>, overrides: seq<Override>)

  const VERSION := "v1alpha1"
  const SOURCES := {"human", "system", "external"}

  predicate ValidSelector(s: Selector) {
    if !Blank(s.tool) then Blank(s.service) && Blank(s.operation) else !Blank(s.service) && !Blank(s.operation)
  }

  /** Known tiers, in canonical order, none twice. */
  ghost predicate ValidTiers(tiers: seq<string>) {
    (forall i | 0 <= i < |tiers| :: tiers[i] in TIERS) && NoRepeats(tiers) && Sorted(tiers, TierLe)
  }

  predicate ValidLimits(a: Action, requireReason: bool) {
    && (a.maxAmount.Some? ==> a.maxAmount.value >= 0.0)
    && (a.approval.Some? ==> a.requiresApproval && a.approval.value.source in SOURCES)
    && (requireReason ==> !Blank(a.reason))
  }

  ghost predicate ValidAction(a: Action, requireReason: bool) {
    ValidSelector(a.who) && Rank(a.effect) > 0 && ValidTiers(a.tiers) && ValidLimits(a, requireReason)
  }

  function ActionKeys(actions: seq<Action>): seq<string> {
    Map(actions, (a: Action) => Key(a.who))
  }

  ghost predicate ValidActions(actions: seq<Action>, requireReason: bool) {
    forall i | 0 <= i < |actions| :: ValidAction(actions[i], requireReason)
  }

  predicate SetsSomething(o: Override) {
    o.effect != "" || o.tiers != [] || o.requiresApproval.Some? || o.maxAmount.Some?
  }

  ghost predicate ValidOverride(o: Override) {
    && !Blank(o.id) && ValidSelector(o.who) && (o.effect == "" || Rank(o.effect) > 0) && ValidTiers(o.tiers)
    && (o.maxAmount.Some? ==> o.maxAmount.value >= 0.0)
    && SetsSomething(o) && !Blank(o.reason) && !o.approvedAt.BadStamp?
  }

  ghost predicate OverrideIdsDiffer(overrides: seq<Override>, n: nat)
    requires n <= |overrides|
  {
    forall i, j | 0 <= i < j < n :: TrimSpace(overrides[i].id) != TrimSpace(overrides[j].id)
  }

  /** The first n overrides are valid, and no two have the same id. */
  ghost predicate ValidOverrides(overrides: seq<Override>, n: nat)
    requires n <= |overrides|
  {
    (forall i | 0 <= i < n :: ValidOverride(overrides[i])) && OverrideIdsDiffer(overrides, n)
  }

  ghost predicate ValidFile(f: File) {
    && f.version == VERSION && !Blank(f.agent) && ValidSet(f.models)
    && f.allowed + f.restricted + f.forbidden != []
    && ValidActions(f.allowed, false) && ValidActions(f.restricted, false) && ValidActions(f.forbidden, true)
    && NoRepeats(ActionKeys(f.allowed) + ActionKeys(f.restricted) + ActionKeys(f.forbidden))
    && ValidOverrides(f.overrides, |f.overrides|)
  }

  // -------------------------------------------------------------- validation

  method ValidateSelector(prefix: string, s: Selector, before: seq<string>)
    returns (problems: seq<string>, key: Option<string>)
    ensures before <= problems
    ensures problems == before <==> ValidSelector(s)
    ensures key == if ValidSelector(s) then Some(Key(s)) else None
  {
    problems := before;
    var service, operation, tool := TrimSpace(s.service), TrimSpace(s.operation), TrimSpace(s.tool);
    if tool != "" {
      if service != "" || operation != "" {
        problems := problems + [prefix + ".tool cannot be combined with service or operation"];
        return problems, None;
      }
      return problems, Some("tool:" + tool);
    }
    if service == "" {
      problems := problems + [prefix + ".service is required when tool is not set"];
    }
    if operation == "" {
      problems := problems + [prefix + ".operation is required when tool is not set"];
    }
    key := if service == "" || operation == "" then None
           else Some("service:" + service + "\noperation:" + operation);
  }

  method ValidateTiers(field: string, tiers: seq<string>, before: seq<string>) returns (problems: seq<string>)
    ensures before <= problems
    ensures problems == before <==> ValidTiers(tiers)
  {
    problems := before;
    var seen: set<string> := {};
    var lastIndex: int := -1;
    for n := 0 to |tiers|
      invariant before <= problems
      invariant problems == before ==>
                  && (forall t :: t in seen <==> t in tiers[..n])
                  && lastIndex == (if n == 0 then -1 else TierIndex(tiers[n - 1]))
      invariant problems == before <==> ValidTiers(tiers[..n])
    {
      var tier := tiers[n];
      ValidTiersSnoc(tiers, n);
      if tier !in TIERS {
        problems := problems + [field + " contains an invalid fallback tier"];
        continue;
      }
      if tier in seen {
        problems := problems + [field + " contains a duplicate fallback tier"];
        continue;
      }
      seen := seen + {tier};
      if TierIndex(tier) < lastIndex {
        problems := problems + [field + " must keep tiers in canonical order"];
        continue;
      }
      lastIndex := TierIndex(tier);
    }
    assert tiers[..|tiers|] == tiers;
  }

  lemma ValidTiersSnoc(tiers: seq<string>, n: nat)
    requires n < |tiers|
    ensures ValidTiers(tiers[..n + 1]) <==>
              && ValidTiers(tiers[..n]) && tiers[n] in TIERS && tiers[n] !in tiers[..n]
              && (n > 0 ==> TierIndex(tiers[n - 1]) <= TierIndex(tiers[n]))
  {
    var few, more := tiers[..n], tiers[..n + 1];
    assert more == few + [tiers[n]];
    if && ValidTiers(few) && tiers[n] in TIERS && tiers[n] !in few
       && (n > 0 ==> TierIndex(tiers[n - 1]) <= TierIndex(tiers[n])) {
      forall i, j | 0 <= i < j < |more|
        ensures more[i] != more[j] && TierLe(more[i], more[j])
      {
        assert few[i] == more[i];
        if j == n && i < n - 1 {
          assert TierLe(few[i], few[n - 1]);
        }
      }
      forall i | 0 <= i < |more|
        ensures more[i] in TIERS
      {
        assert i < n ==> more[i] == few[i];
      }
    }
    if ValidTiers(more) {
      forall i | 0 <= i < n
        ensures few[i] in TIERS && few[i] != tiers[n]
      {
        assert few[i] == more[i] && more[i] != more[n];
      }
      assert more[n] in TIERS;
      assert n > 0 ==> TierLe(more[n - 1], more[n]);
    }
  }

  method ValidateLimits(
    prefix: string, a: Action, requireReason: bool, before: seq<string>) returns (problems: seq<string>)
    ensures before <= problems
    ensures problems == before <==> ValidLimits(a, requireReason)
  {
    problems := before;
    if a.maxAmount.Some? && a.maxAmount.value < 0.0 {
      problems := problems + [prefix + ".max_amount must be greater than or equal to 0"];
    }
    if a.approval.Some? {
      if !a.requiresApproval {
        problems := problems + [prefix + ".approval cannot be set unless requires_approval is true"];
      }
      if a.approval.value.source !in SOURCES {
        problems := problems + [prefix + ".approval.source is unknown"];
      }
    }
    if requireReason && Blank(a.reason) {
      problems := problems + [prefix + ".reason is required for forbidden actions"];
    }
  }

  method ValidateAction(prefix: string, a: Action, requireReason: bool, before: seq<string>)
    returns (problems: seq<string>, key: Option<string>)
    ensures before <= problems
    ensures problems == before <==> ValidAction(a, requireReason)
    ensures key == if ValidSelector(a.who) then Some(Key(a.who)) else None
  {
    problems, key := ValidateSelector(prefix, a.who, before);
    if a.effect == "" {
      problems := problems + [prefix + ".side_effect is required"];
    } else if Rank(a.effect) == 0 {
      problems := problems + [prefix + ".side_effect is unknown"];
    }
    problems := ValidateTiers(prefix + ".allowed_fallback_tiers", a.tiers, problems);
    problems := ValidateLimits(prefix, a, requireReason, problems);
  }

  /** The first n actions have new keys, none twice. */
  ghost predicate NewKeys(actions: seq<Action>, n: nat, seen: set<string>)
    requires n <= |actions|
  {
    && (forall i | 0 <= i < n :: Key(actions[i].who) !in seen)
    && (forall i, j | 0 <= i < j < n :: Key(actions[i].who) != Key(actions[j].who))
  }

  ghost predicate ValidList(actions: seq<Action>, n: nat, requireReason: bool, seen: set<string>)
    requires n <= |actions|
  {
    (forall i | 0 <= i < n :: ValidAction(actions[i], requireReason)) && NewKeys(actions, n, seen)
  }

  ghost function KeySet(actions: seq<Action>, n: nat): set<string>
    requires n <= |actions|
  {
    set i | 0 <= i < n :: Key(actions[i].who)
  }

  lemma NewKeysStep(actions: seq<Action>, n: nat, seen: set<string>)
    requires n < |actions|
    ensures KeySet(actions, n + 1) == KeySet(actions, n) + {Key(actions[n].who)}
    ensures NewKeys(actions, n + 1, seen) <==>
            NewKeys(actions, n, seen) && Key(actions[n].who) !in seen + KeySet(actions, n)
  {
  }

  method ValidateActionList(
    field: string, actions: seq<Action>, requireReason: bool, seen: set<string>, before: seq<string>)
    returns (problems: seq<string>, seen': set<string>)
    ensures before <= problems
    ensures problems == before <==> ValidList(actions, |actions|, requireReason, seen)
    ensures problems == before ==> seen' == seen + KeySet(actions, |actions|)
  {
    problems, seen' := before, seen;
    for n := 0 to |actions|
      invariant before <= problems
      invariant problems == before <==> ValidList(actions, n, requireReason, seen)
      invariant problems == before ==> seen' == seen + KeySet(actions, n)
    {
      var prefix, key := field + "[" + Dec(n) + "]", None;
      problems, key := ValidateAction(prefix, actions[n], requireReason, problems);
      NewKeysStep(actions, n, seen);
      if key.Some? {
        if key.value in seen' {
          problems := problems + [prefix + " duplicates an action selector already defined"];
        } else {
          seen' := seen' + {key.value};
        }
      }
    }
  }

  lemma ListsValid(f: File)
    ensures
      var a := KeySet(f.allowed, |f.allowed|);
      var r := a + KeySet(f.restricted, |f.restricted|);
      && ValidList(f.allowed, |f.allowed|, false, {})
      && ValidList(f.restricted, |f.restricted|, false, a)
      && ValidList(f.forbidden, |f.forbidden|, true, r)
      <==>
      && ValidActions(f.allowed, false) && ValidActions(f.restricted, false) && ValidActions(f.forbidden, true)
      && NoRepeats(ActionKeys(f.allowed) + ActionKeys(f.restricted) + ActionKeys(f.forbidden))
  {
    var a := KeySet(f.allowed, |f.allowed|);
    assert [] + ActionKeys(f.allowed) == ActionKeys(f.allowed);
    KeysOfList(f.allowed, [], false, {});
    KeysOfList(f.restricted, ActionKeys(f.allowed), false, a);
    KeysOfList(f.forbidden, ActionKeys(f.allowed) + ActionKeys(f.restricted), true, a + KeySet(f.restricted, |f.restricted|));
    var all := ActionKeys(f.allowed) + ActionKeys(f.restricted);
    RepeatsPrefix(ActionKeys(f.allowed), ActionKeys(f.restricted));
    RepeatsPrefix(all, ActionKeys(f.forbidden));
  }

  lemma RepeatsPrefix(xs: seq<string>, ys: seq<string>)
    ensures NoRepeats(xs + ys) ==> NoRepeats(xs)
  {
    if NoRepeats(xs + ys) {
      forall i, j | 0 <= i < j < |xs|
        ensures xs[i] != xs[j]
      {
        assert (xs + ys)[i] != (xs + ys)[j];
      }
    }
  }

  lemma KeysOfList(actions: seq<Action>, earlier: seq<string>, requireReason: bool, seen: set<string>)
    requires forall k :: k in seen <==> k in earlier
    ensures forall k :: k in seen + KeySet(actions, |actions|) <==> k in earlier + ActionKeys(actions)
    ensures NoRepeats(earlier) ==>
              (ValidList(actions, |actions|, requireReason, seen) <==>
               ValidActions(actions, requireReason) && NoRepeats(earlier + ActionKeys(actions)))
  {
    var keys := ActionKeys(actions);
    forall k
      ensures k in KeySet(actions, |actions|) <==> k in keys
    {
      if k in KeySet(actions, |actions|) {
        var i :| 0 <= i < |actions| && Key(actions[i].who) == k;
        assert keys[i] == k;
      }
    }
    if NoRepeats(earlier + keys) {
      forall i | 0 <= i < |actions|
        ensures Key(actions[i].who) !in seen
      {
        forall m | 0 <= m < |earlier|
          ensures earlier[m] != keys[i]
        {
          assert (earlier + keys)[m] != (earlier + keys)[|earlier| + i];
        }
      }
      forall i, j | 0 <= i < j < |actions|
        ensures Key(actions[i].who) != Key(actions[j].who)
      {
        assert (earlier + keys)[|earlier| + i] != (earlier + keys)[|earlier| + j];
      }
    }
    if NoRepeats(earlier) && ValidList(actions, |actions|, requireReason, seen) {
      forall i, j | 0 <= i < j < |earlier + keys|
        ensures (earlier + keys)[i] != (earlier + keys)[j]
      {
        if i < |earlier| <= j {
          assert Key(actions[j - |earlier|].who) !in seen;
        }
      }
    }
  }

  method ValidateOverride(prefix: string, o: Override, before: seq<string>) returns (problems: seq<string>)
    ensures before <= problems
    ensures Blank(o.id) || (problems == before <==> ValidOverride(o))
  {
    var key;
    problems, key := ValidateSelector(prefix + ".match", o.who, before);
    if o.effect != "" && Rank(o.effect) == 0 {
      problems := problems + [prefix + ".side_effect is unknown"];
    }
    problems := ValidateTiers(prefix + ".allowed_fallback_tiers", o.tiers, problems);
    if o.maxAmount.Some? && o.maxAmount.value < 0.0 {
      problems := problems + [prefix + ".max_amount must be greater than or equal to 0"];
    }
    if o.effect == "" && |o.tiers| == 0 && o.requiresApproval == None && o.maxAmount == None {
      problems := problems + [prefix + " must set at least one override field"];
    }
    if Blank(o.reason) {
      problems := problems + [prefix + ".reason is required"];
    }
    if o.approvedAt.BadStamp? {
      problems := problems + [prefix + ".approved_at must be an RFC3339 timestamp"];
    }
  }

  ghost function IdSet(overrides: seq<Override>, n: nat): set<string>
    requires n <= |overrides|
  {
    set i | 0 <= i < n :: TrimSpace(overrides[i].id)
  }

  lemma IdSetStep(overrides: seq<Override>, n: nat)
    requires n < |overrides|
    ensures IdSet(overrides, n + 1) == IdSet(overrides, n) + {TrimSpace(overrides[n].id)}
  {
  }

  lemma OverrideIdsStep(overrides: seq<Override>, n: nat)
    requires n < |overrides|
    ensures OverrideIdsDiffer(overrides, n + 1) <==>
            OverrideIdsDiffer(overrides, n) && TrimSpace(overrides[n].id) !in IdSet(overrides, n)
  {
    if OverrideIdsDiffer(overrides, n) && TrimSpace(overrides[n].id) !in IdSet(overrides, n) {
      assert forall i | 0 <= i < n :: TrimSpace(overrides[i].id) in IdSet(overrides, n);
    }
  }

  method ValidateUserOverrides(overrides: seq<Override>, before: seq<string>) returns (problems: seq<string>)
    ensures before <= problems
    ensures problems == before <==> ValidOverrides(overrides, |overrides|)
  {
    problems := before;
    var seen: set<string> := {};
    for n := 0 to |overrides|
      invariant before <= problems
      invariant seen == IdSet(overrides, n)
      invariant problems == before <==> ValidOverrides(overrides, n)
    {
      var prefix, id := "user_overrides[" + Dec(n) + "]", TrimSpace(overrides[n].id);
      if id == "" {
        problems := problems + [prefix + ".id is required"];
      } else if id in seen {
        problems := problems + [prefix + ".id is duplicated"];
      }
      seen := seen + {id};
      IdSetStep(overrides, n);
      OverrideIdsStep(overrides, n);
      problems := ValidateOverride(prefix, overrides[n], problems);
    }
  }

  /** No problem is found exactly when the file is valid. */
  method ValidateFile(f: File) returns (problems: seq<string>)
    ensures problems == [] <==> ValidFile(f)
  {
    problems := [];
    if f.version != VERSION {
      problems := problems + ["schema_version must be " + VERSION];
    }
    if Blank(f.agent) {
      problems := problems + ["agent.name is required"];
    }
    problems := ValidateStringSet("agent.models", f.models, problems);
    if |f.allowed| + |f.restricted| + |f.forbidden| == 0 {
      problems := problems + ["at least one action is required"];
    }
    ListsValid(f);
    var seen: set<string> := {};
    problems, seen := ValidateActionList("allowed_actions", f.allowed, false, seen, problems);
    problems, seen := ValidateActionList("restricted_actions", f.restricted, false, seen, problems);
    problems, seen := ValidateActionList("forbidden_actions", f.forbidden, true, seen, problems);
    problems := ValidateUserOverrides(f.overrides, problems);
  }
}
