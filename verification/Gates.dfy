/** Release gates: each gate is compiled to one assertion.  `Holds` reads a gate directly, without
    assertions; the compiled form must agree with it. */
module Gates {
  import opened Assertions
  import opened Results
  import opened Sorting
  import opened StringSets
  import opened Text

  datatype Selector =
    Selector(service: string, operation: string, tool: string, sideEffect: string, destinationType: string)

  datatype BlockIf = BlockIf(
    who: Selector, amountGt: Option<real>, approvalMissing: bool, channel: string, domain: string,
    newAction: Option<bool>, unknownRisk: Option<bool>)

  datatype Order = Order(earlier: Selector, later: Selector)

  datatype Limit = Limit(who: Selector, amount: Option<real>)

  datatype Allowed = Allowed(who: Selector, values: seq<string>)

  datatype Gate = Gate(
    name: string,
    blockIf: Option<BlockIf>,
    requireOrder: Option<Order>,
    requireApproval: Option<Limit>,
    maxAmount: Option<Limit>,
    allowedChannels: Option<Allowed>,
    allowedDomains: Option<Allowed>,
    forbidNewAction: Option<Selector>,
    forbidUnknownRisk: Option<Selector>)

  datatype GateFile = GateFile(version: string, gates: seq<Gate>)

  const SIDE_EFFECTS := {"read", "write", "destructive", "financial", "external_message", UNKNOWN}

  // ---------------------------------------------------------- direct reading

  /** The selector picks the interaction: a tool by name, anything else by service and operation. */
  predicate Picks(who: Selector, x: Interaction) {
    && (if !Blank(who.tool) then x.service == TOOL_SERVICE && x.operation == TrimSpace(who.tool)
        else (who.service == "" || who.service == x.service) && (who.operation == "" || who.operation == x.operation))
    && (who.sideEffect == "" || who.sideEffect == x.sideEffect)
    && (who.destinationType == "" || who.destinationType == x.destinationType)
  }

  predicate Above(x: Interaction, limit: real) {
    x.amount.Some? && x.amount.value > limit
  }

  predicate IsNew(keys: set<string>, x: Interaction) {
    ActionKey(x) !in keys
  }

  /** Compared without case and surrounding space; an interaction without a value is not allowed. */
  predicate Permitted(value: string, values: seq<string>) {
    exists i :: 0 <= i < |values| && Folded(value) != "" && Folded(values[i]) == Folded(value)
  }

  predicate Blocked(b: BlockIf, keys: set<string>, x: Interaction) {
    && Picks(b.who, x)
    && (b.amountGt.None? || Above(x, b.amountGt.value))
    && (b.approvalMissing ==> !x.approved)
    && (b.channel == "" || x.channel == b.channel)
    && (b.domain == "" || x.domain == b.domain)
    && (b.newAction.None? || b.newAction.value == IsNew(keys, x))
    && (b.unknownRisk.None? || b.unknownRisk.value == (x.sideEffect == UNKNOWN))
  }

  /** The interaction breaks a gate other than a required order. */
  predicate Violates(g: Gate, keys: set<string>, x: Interaction) {
    || (g.blockIf.Some? && Blocked(g.blockIf.value, keys, x))
    || (g.requireApproval.Some? &&
        var a := g.requireApproval.value;
        Picks(a.who, x) && !x.approved && (a.amount.None? || Above(x, a.amount.value)))
    || (g.maxAmount.Some? &&
        var m := g.maxAmount.value;
        Picks(m.who, x) && m.amount.Some? && Above(x, m.amount.value))
    || (g.allowedChannels.Some? &&
        Picks(g.allowedChannels.value.who, x) && !Permitted(x.channel, g.allowedChannels.value.values))
    || (g.allowedDomains.Some? &&
        Picks(g.allowedDomains.value.who, x) && !Permitted(x.domain, g.allowedDomains.value.values))
    || (g.forbidNewAction.Some? && Picks(g.forbidNewAction.value, x) && IsNew(keys, x))
    || (g.forbidUnknownRisk.Some? && Picks(g.forbidUnknownRisk.value, x) && x.sideEffect == UNKNOWN)
  }

  /** A gate holds when nothing violates it, and for a required order when some earlier action comes
      before some later one. */
  ghost predicate Holds(g: Gate, keys: set<string>, run: seq<Interaction>) {
    if g.requireOrder.Some? then
      exists x, y :: x in run && y in run && x.sequence < y.sequence
                  && Picks(g.requireOrder.value.earlier, x) && Picks(g.requireOrder.value.later, y)
    else forall x | x in run :: !Violates(g, keys, x)
  }

  // -------------------------------------------------------------- validation

  function One<T>(o: Option<T>): nat {
    if o.Some? then 1 else 0
  }

  function Clauses(g: Gate): nat {
    One(g.blockIf) + One(g.requireOrder) + One(g.requireApproval) + One(g.maxAmount)
    + One(g.allowedChannels) + One(g.allowedDomains) + One(g.forbidNewAction) + One(g.forbidUnknownRisk)
  }

  predicate ValidSelector(who: Selector, requireAction: bool) {
    && (!Blank(who.tool) ==> Blank(who.service) && Blank(who.operation))
    && (!Blank(who.operation) ==> !Blank(who.service))
    && (requireAction ==> !Blank(who.service) || !Blank(who.tool))
    && (who.sideEffect == "" || who.sideEffect in SIDE_EFFECTS)
  }

  predicate HasSelector(who: Selector) {
    !Blank(who.service) || !Blank(who.operation) || !Blank(who.tool) || who.sideEffect != "" || !Blank(who.destinationType)
  }

  predicate ValidLimit(amount: Option<real>) {
    amount.Some? ==> amount.value >= 0.0
  }

  predicate ValidAllowed(a: Allowed) {
    ValidSelector(a.who, false) && ValidSet(a.values) && a.values != []
  }

  predicate ValidBlockIf(b: BlockIf) {
    && ValidSelector(b.who, false) && ValidLimit(b.amountGt)
    && (|| HasSelector(b.who) || b.amountGt.Some? || b.approvalMissing || !Blank(b.channel) || !Blank(b.domain)
        || b.newAction.Some? || b.unknownRisk.Some?)
  }

  predicate ValidGate(g: Gate) {
    && !Blank(g.name) && Clauses(g) == 1
    && (g.blockIf.Some? ==> ValidBlockIf(g.blockIf.value))
    && (g.requireOrder.Some? ==>
          ValidSelector(g.requireOrder.value.earlier, true) && ValidSelector(g.requireOrder.value.later, true))
    && (g.requireApproval.Some? ==>
          && ValidSelector(g.requireApproval.value.who, false) && HasSelector(g.requireApproval.value.who)
          && ValidLimit(g.requireApproval.value.amount))
    && (g.maxAmount.Some? ==>
          && ValidSelector(g.maxAmount.value.who, false) && HasSelector(g.maxAmount.value.who)
          && g.maxAmount.value.amount.Some? && g.maxAmount.value.amount.value >= 0.0)
    && (g.allowedChannels.Some? ==> ValidAllowed(g.allowedChannels.value))
    && (g.allowedDomains.Some? ==> ValidAllowed(g.allowedDomains.value))
    && (g.forbidNewAction.Some? ==> ValidSelector(g.forbidNewAction.value, false))
    && (g.forbidUnknownRisk.Some? ==> ValidSelector(g.forbidUnknownRisk.value, false))
  }

  ghost predicate ValidGateFile(f: GateFile) {
    f.version == VERSION && f.gates != [] && forall i | 0 <= i < |f.gates| :: ValidGate(f.gates[i])
  }

  // ------------------------------------------------------------- compilation

  function GateId(i: nat): string {
    "gate-" + Padded(i + 1, 3)
  }

  function MatchFrom(who: Selector): Match {
    ANY_MATCH.(service := who.service, operation := who.operation, tool := who.tool,
              sideEffect := who.sideEffect, destinationType := who.destinationType)
  }

  function Blocking(id: string, m: Match): Assertion {
    Assertion(id, Counting, m, Count(None, None, Some(0)), None, None)
  }

  /** The assertion of the i-th gate: the first clause that is set decides. */
  function Compile(i: nat, g: Gate): Assertion {
    var id := GateId(i);
    if g.blockIf.Some? then
      var b := g.blockIf.value;
      Blocking(id, MatchFrom(b.who).(
        amountGt := b.amountGt, approvalMissing := if b.approvalMissing then Some(true) else None,
        channel := b.channel, domain := b.domain, newAction := b.newAction, unknownRisk := b.unknownRisk))
    else if g.requireOrder.Some? then
      Assertion(id, Ordering, ANY_MATCH, Count(None, None, None),
        Some(MatchFrom(g.requireOrder.value.earlier)), Some(MatchFrom(g.requireOrder.value.later)))
    else if g.requireApproval.Some? then
      var a := g.requireApproval.value;
      Blocking(id, MatchFrom(a.who).(amountGt := a.amount, approvalMissing := Some(true)))
    else if g.maxAmount.Some? then
      Blocking(id, MatchFrom(g.maxAmount.value.who).(amountGt := g.maxAmount.value.amount))
    else if g.allowedChannels.Some? then
      Blocking(id, MatchFrom(g.allowedChannels.value.who).(channelNotIn := g.allowedChannels.value.values))
    else if g.allowedDomains.Some? then
      Blocking(id, MatchFrom(g.allowedDomains.value.who).(domainNotIn := g.allowedDomains.value.values))
    else if g.forbidNewAction.Some? then
      Blocking(id, MatchFrom(g.forbidNewAction.value).(newAction := Some(true)))
    else if g.forbidUnknownRisk.Some? then
      Blocking(id, MatchFrom(g.forbidUnknownRisk.value).(unknownRisk := Some(true)))
    else Blocking(id, ANY_MATCH.(interactionId := "__invalid_gate__"))
  }

  function GateType(g: Gate): string {
    if g.blockIf.Some? then "block_if"
    else if g.requireOrder.Some? then "require_order"
    else if g.requireApproval.Some? then "require_approval"
    else if g.maxAmount.Some? then "max_amount"
    else if g.allowedChannels.Some? then "allowed_channels"
    else if g.allowedDomains.Some? then "allowed_domains"
    else if g.forbidNewAction.Some? then "forbid_new_action"
    else if g.forbidUnknownRisk.Some? then "forbid_unknown_risk"
    else "unknown"
  }

  function Compiled(f: GateFile): File {
    File(VERSION, seq(|f.gates|, i requires 0 <= i < |f.gates| => Compile(i, f.gates[i])))
  }

  // --------------------------------------------- compilation keeps the meaning

  lemma PicksIsMeets(who: Selector, keys: set<string>, x: Interaction)
    requires ValidSelector(who, false)
    ensures Picks(who, x) == Meets(keys, x, MatchFrom(who))
  {
  }

  lemma PermittedIs(value: string, values: seq<string>)
    ensures Permitted(value, values) == StringInSet(value, values)
  {
  }

  lemma BlockIfSelector(i: nat, g: Gate, keys: set<string>, x: Interaction)
    requires ValidGate(g) && g.blockIf.Some?
    ensures Meets(keys, x, Compile(i, g).selector) == Violates(g, keys, x)
  {
    PicksIsMeets(g.blockIf.value.who, keys, x);
  }

  lemma ListSelector(i: nat, g: Gate, keys: set<string>, x: Interaction)
    requires ValidGate(g) && (g.allowedChannels.Some? || g.allowedDomains.Some?)
    ensures Meets(keys, x, Compile(i, g).selector) == Violates(g, keys, x)
  {
    if g.allowedChannels.Some? {
      PermittedIs(x.channel, g.allowedChannels.value.values);
    } else {
      PermittedIs(x.domain, g.allowedDomains.value.values);
    }
  }

  /** The selector compiled for a blocking gate meets exactly the violations. */
  lemma SelectorIsViolation(i: nat, g: Gate, keys: set<string>, x: Interaction)
    requires ValidGate(g) && g.requireOrder.None?
    ensures Meets(keys, x, Compile(i, g).selector) == Violates(g, keys, x)
  {
    if g.blockIf.Some? {
      BlockIfSelector(i, g, keys, x);
    } else if g.allowedChannels.Some? || g.allowedDomains.Some? {
      ListSelector(i, g, keys, x);
    }
  }

  function Violations(g: Gate, keys: set<string>, run: seq<Interaction>): seq<Interaction> {
    Filter(run, x => Violates(g, keys, x))
  }

  lemma BlockingAgrees(i: nat, g: Gate, keys: set<string>, run: seq<Interaction>)
    requires ValidGate(g) && g.requireOrder.None?
    ensures
      var o, bad := OutcomeOf(keys, run, Compile(i, g)), Violations(g, keys, run);
      && o.status == (if Holds(g, keys, run) then Passed else Failed)
      && o.evidence == Evidence(bad, None, |bad|)
  {
    var a := Compile(i, g);
    assert a.kind == Counting && a.count == Count(None, None, Some(0));
    forall x
      ensures Meets(keys, x, a.selector) == Violates(g, keys, x)
    {
      SelectorIsViolation(i, g, keys, x);
    }
    FilterSame(run, x => Meets(keys, x, a.selector), x => Violates(g, keys, x));
    FilterIs(run, x => Violates(g, keys, x));
    if Violations(g, keys, run) != [] {
      assert Violations(g, keys, run)[0] in Violations(g, keys, run);
    }
  }

  /** The evidence of a required order: a pair in order if it holds, else all that either side picks. */
  ghost predicate OrderShown(g: Gate, run: seq<Interaction>, e: Evidence)
    requires g.requireOrder.Some?
  {
    var early, late := g.requireOrder.value.earlier, g.requireOrder.value.later;
    match e.pair
    case Some((x, y)) => x in run && y in run && x.sequence < y.sequence && Picks(early, x) && Picks(late, y)
    case None => forall x :: x in e.matched <==> x in run && (Picks(early, x) || Picks(late, x))
  }

  lemma OrderAgrees(i: nat, g: Gate, keys: set<string>, run: seq<Interaction>)
    requires ValidGate(g) && g.requireOrder.Some?
    ensures
      var o := OutcomeOf(keys, run, Compile(i, g));
      && o.status == (if Holds(g, keys, run) then Passed else Failed)
      && (o.status == Passed <==> o.evidence.pair.Some?) && OrderShown(g, run, o.evidence)
  {
    var early, late := g.requireOrder.value.earlier, g.requireOrder.value.later;
    assert Compile(i, g).kind == Ordering;
    FilterIs(run, x => Meets(keys, x, MatchFrom(early)));
    FilterIs(run, x => Meets(keys, x, MatchFrom(late)));
    forall x
      ensures Meets(keys, x, MatchFrom(early)) == Picks(early, x) && Meets(keys, x, MatchFrom(late)) == Picks(late, x)
    {
      PicksIsMeets(early, keys, x);
      PicksIsMeets(late, keys, x);
    }
    FirstPairIs(Matching(keys, run, MatchFrom(early)), Matching(keys, run, MatchFrom(late)));
  }

  /** Evaluating the compiled assertion of a valid gate gives the gate's own verdict. */
  lemma CompilationAgrees(i: nat, g: Gate, keys: set<string>, run: seq<Interaction>)
    requires ValidGate(g)
    ensures
      var o := OutcomeOf(keys, run, Compile(i, g));
      && o.id == GateId(i)
      && o.status == (if Holds(g, keys, run) then Passed else Failed)
      && (g.requireOrder.None? ==> o.evidence == Evidence(Violations(g, keys, run), None, |Violations(g, keys, run)|))
      && (g.requireOrder.Some? ==> (Holds(g, keys, run) <==> o.evidence.pair.Some?) && OrderShown(g, run, o.evidence))
  {
    if g.requireOrder.Some? {
      OrderAgrees(i, g, keys, run);
    } else {
      BlockingAgrees(i, g, keys, run);
    }
  }

  // ------------------------------------------------- compilation keeps validity

  lemma GateIdGood(i: nat)
    ensures !Blank(GateId(i))
  {
    var id := GateId(i);
    assert id[0] == 'g' && id[|id| - 1] == Padded(i + 1, 3)[|Padded(i + 1, 3)| - 1];
    TrimFixed(id);
  }

  lemma ValidCompile(i: nat, g: Gate)
    requires ValidGate(g)
    ensures ValidAssertion(Compile(i, g))
  {
    NoValues();
    if g.requireOrder.Some? {
      ValidSelectorMatch(g.requireOrder.value.earlier);
      ValidSelectorMatch(g.requireOrder.value.later);
    }
    SideEffectsNotBlank();
  }

  lemma NoValues()
    ensures ValidSet([]) && !HasMatch(ANY_MATCH)
  {
  }

  lemma SideEffectsNotBlank()
    ensures forall s | s in SIDE_EFFECTS :: !Blank(s)
  {
    TrimFixed("read");
    TrimFixed("write");
    TrimFixed("destructive");
    TrimFixed("financial");
    TrimFixed("external_message");
    TrimFixed("unknown");
  }

  lemma ValidSelectorMatch(who: Selector)
    requires ValidSelector(who, true)
    ensures ValidMatch(MatchFrom(who))
  {
  }

  lemma GateIdsDiffer(i: nat, j: nat)
    requires i != j
    ensures GateId(i) != GateId(j)
  {
    if GateId(i) == GateId(j) {
      PaddedInjective("gate-", i + 1, j + 1, 3);
    }
  }

  lemma CompileId(i: nat, g: Gate)
    ensures Compile(i, g).id == GateId(i)
  {
  }

  /** A valid gate file always compiles to a valid assertion file. */
  lemma CompiledIsValid(f: GateFile)
    requires ValidGateFile(f)
    ensures ValidFile(Compiled(f))
  {
    var compiled := Compiled(f).assertions;
    forall i | 0 <= i < |f.gates|
      ensures compiled[i].id == GateId(i) && !Blank(compiled[i].id) && ValidAssertion(compiled[i])
    {
      CompileId(i, f.gates[i]);
      GateIdGood(i);
      ValidCompile(i, f.gates[i]);
    }
    forall i, j | 0 <= i < j < |compiled|
      ensures compiled[i].id != compiled[j].id
    {
      GateIdsDiffer(i, j);
    }
  }
}
