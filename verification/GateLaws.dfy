/** When a release gate is refused, and what its name and kind are. */
module GateLaws {
  import opened Assertions
  import opened Gates
  import opened Results
  import opened StringSets
  import opened Text

  // ------------------------------------------------------------- refusals

  /** A selector is refused exactly if it names a tool beside a service or operation, an operation
      without a service, nothing where an action is required, or an unknown side effect. */
  lemma SelectorRefusedIff(who: Selector, requireAction: bool)
    ensures !ValidSelector(who, requireAction) <==>
            || (!Blank(who.tool) && !(Blank(who.service) && Blank(who.operation)))
            || (!Blank(who.operation) && Blank(who.service))
            || (requireAction && Blank(who.service) && Blank(who.tool))
            || !(who.sideEffect == "" || who.sideEffect == "read" || who.sideEffect == "write"
                 || who.sideEffect == "destructive" || who.sideEffect == "financial"
                 || who.sideEffect == "external_message" || who.sideEffect == "unknown")
  {
  }

  /** The selector has no field set. */
  predicate Bare(who: Selector) {
    Blank(who.service) && Blank(who.operation) && Blank(who.tool) && who.sideEffect == "" && Blank(who.destinationType)
  }

  predicate Negative(amount: Option<real>) {
    amount.Some? && amount.value < 0.0
  }

  /** The list is empty, or has a blank value or the same value twice. */
  ghost predicate BadList(values: seq<string>) {
    || values == []
    || (exists i :: 0 <= i < |values| && Blank(values[i]))
    || (exists i, j :: 0 <= i < j < |values| && TrimSpace(values[i]) == TrimSpace(values[j]))
  }

  /** The clauses of a gate in the order in which the first one set decides. */
  function Set(g: Gate): seq<bool> {
    [g.blockIf.Some?, g.requireOrder.Some?, g.requireApproval.Some?, g.maxAmount.Some?,
     g.allowedChannels.Some?, g.allowedDomains.Some?, g.forbidNewAction.Some?, g.forbidUnknownRisk.Some?]
  }

  const KINDS: seq<string> := [
    "block_if", "require_order", "require_approval", "max_amount",
    "allowed_channels", "allowed_domains", "forbid_new_action", "forbid_unknown_risk"]

  /** The gate has the clause number i and no other. */
  predicate Only(g: Gate, i: nat)
    requires i < 8
  {
    Set(g)[i] && forall j | 0 <= j < 8 && j != i :: !Set(g)[j]
  }

  lemma OneClauseIff(g: Gate)
    ensures Clauses(g) == 1 <==> exists i :: 0 <= i < 8 && Only(g, i)
  {
    SetAre(g);
    if Clauses(g) == 1 {
      var i := if g.blockIf.Some? then 0 else if g.requireOrder.Some? then 1 else if g.requireApproval.Some? then 2
               else if g.maxAmount.Some? then 3 else if g.allowedChannels.Some? then 4
               else if g.allowedDomains.Some? then 5 else if g.forbidNewAction.Some? then 6 else 7;
      assert Only(g, i);
    }
  }

  lemma SetAre(g: Gate)
    ensures Set(g)[0] == g.blockIf.Some? && Set(g)[1] == g.requireOrder.Some? && Set(g)[2] == g.requireApproval.Some?
    ensures Set(g)[3] == g.maxAmount.Some? && Set(g)[4] == g.allowedChannels.Some?
    ensures Set(g)[5] == g.allowedDomains.Some? && Set(g)[6] == g.forbidNewAction.Some?
    ensures Set(g)[7] == g.forbidUnknownRisk.Some?
  {
  }

  /** The kind of a gate is the name of its one clause. */
  lemma KindIs(g: Gate, i: nat)
    requires i < 8 && Only(g, i)
    ensures GateType(g) == KINDS[i]
  {
    SetAre(g);
    assert forall j | 0 <= j < 8 :: Set(g)[j] ==> j == i;
    assert KINDS[i] in KINDS;
  }

  /** What is wrong with the clauses of a gate that say which interactions stop a release. */
  predicate BadLimit(g: Gate) {
    || (g.blockIf.Some? &&
        var b := g.blockIf.value;
        || !ValidSelector(b.who, false) || Negative(b.amountGt)
        || (Bare(b.who) && b.amountGt.None? && !b.approvalMissing && Blank(b.channel) && Blank(b.domain)
            && b.newAction.None? && b.unknownRisk.None?))
    || (g.requireApproval.Some? &&
        var a := g.requireApproval.value;
        !ValidSelector(a.who, false) || Bare(a.who) || Negative(a.amount))
    || (g.maxAmount.Some? &&
        var m := g.maxAmount.value;
        !ValidSelector(m.who, false) || Bare(m.who) || m.amount.None? || Negative(m.amount))
  }

  ghost predicate BadSelection(g: Gate) {
    || (g.requireOrder.Some?
        && !(ValidSelector(g.requireOrder.value.earlier, true) && ValidSelector(g.requireOrder.value.later, true)))
    || (g.allowedChannels.Some?
        && (!ValidSelector(g.allowedChannels.value.who, false) || BadList(g.allowedChannels.value.values)))
    || (g.allowedDomains.Some?
        && (!ValidSelector(g.allowedDomains.value.who, false) || BadList(g.allowedDomains.value.values)))
    || (g.forbidNewAction.Some? && !ValidSelector(g.forbidNewAction.value, false))
    || (g.forbidUnknownRisk.Some? && !ValidSelector(g.forbidUnknownRisk.value, false))
  }

  lemma ListRefusedIff(values: seq<string>)
    ensures !(ValidSet(values) && values != []) <==> BadList(values)
  {
  }

  /** A gate is refused exactly if it has no name, no clause or several, or a bad clause. */
  lemma GateRefusedIff(g: Gate)
    ensures !ValidGate(g) <==>
            || Blank(g.name) || (forall i | 0 <= i < 8 :: !Only(g, i))
            || BadLimit(g) || BadSelection(g)
  {
    OneClauseIff(g);
    if g.allowedChannels.Some? {
      ListRefusedIff(g.allowedChannels.value.values);
    }
    if g.allowedDomains.Some? {
      ListRefusedIff(g.allowedDomains.value.values);
    }
  }

  /** A gate file is refused exactly if it has another version, no gates, or one that is refused. */
  lemma FileRefusedIff(f: GateFile)
    ensures !ValidGateFile(f) <==>
            || f.version != "v1alpha1" || |f.gates| == 0
            || exists i :: 0 <= i < |f.gates| && !ValidGate(f.gates[i])
  {
  }

  // ----------------------------------------------------------------- names

  /** Gates are numbered from 1 with at least three digits. */
  lemma GateIdIs(i: nat)
    ensures GateId(i)[..5] == "gate-" && |GateId(i)| >= 8 && Value(GateId(i)[5..]) == i + 1
  {
    PaddedValue(i + 1, 3);
    assert GateId(i)[5..] == Padded(i + 1, 3);
  }
}
