/** The release gate loops: validation that reports every problem, translation into one assertion
    file with a table from assertion ids back to gates, and the summary of the results. */
module GateEvaluator {
  import opened Assertions
  import opened Gates
  import opened Results
  import opened StringSets
  import opened Text

  datatype Translation = Translation(name: string, kind: string)

  datatype GateResult = GateResult(name: string, kind: string, id: string, status: Status, evidence: Evidence)

  datatype Summary = Summary(total: int, passed: int, failed: int, unsupported: int)

  datatype Evaluation = Evaluation(status: Status, summary: Summary, results: seq<GateResult>, assertions: File)

  // -------------------------------------------------------------- validation

  method ValidateSelector(prefix: string, who: Selector, requireAction: bool, before: seq<string>)
    returns (problems: seq<string>)
    ensures before <= problems
    ensures problems == before <==> ValidSelector(who, requireAction)
  {
    problems := before;
    var service, operation, tool := TrimSpace(who.service), TrimSpace(who.operation), TrimSpace(who.tool);
    if tool != "" && (service != "" || operation != "") {
      problems := problems + [prefix + ".tool cannot be combined with service or operation"];
    }
    if operation != "" && service == "" && tool == "" {
      problems := problems + [prefix + ".service is required when operation is set"];
    }
    if requireAction && service == "" && tool == "" {
      problems := problems + [prefix + " must set service or tool"];
    }
    if who.sideEffect != "" && who.sideEffect !in SIDE_EFFECTS {
      problems := problems + [prefix + ".side_effect is unknown"];
    }
  }

  method RequireSelector(prefix: string, who: Selector, before: seq<string>) returns (problems: seq<string>)
    ensures before <= problems
    ensures problems == before <==> ValidSelector(who, false) && HasSelector(who)
  {
    problems := ValidateSelector(prefix, who, false, before);
    if !HasSelector(who) {
      problems := problems + [prefix + " must set at least one selector field"];
    }
  }

  method ValidateLimit(path: string, amount: Option<real>, before: seq<string>) returns (problems: seq<string>)
    ensures before <= problems
    ensures problems == before <==> ValidLimit(amount)
  {
    problems := before;
    if amount.Some? && amount.value < 0.0 {
      problems := problems + [path + " must be greater than or equal to 0"];
    }
  }

  method ValidateBlockIf(prefix: string, b: BlockIf, before: seq<string>) returns (problems: seq<string>)
    ensures before <= problems
    ensures problems == before <==> ValidBlockIf(b)
  {
    problems := ValidateSelector(prefix, b.who, false, before);
    problems := ValidateLimit(prefix + ".amount_gt", b.amountGt, problems);
    if !HasSelector(b.who) && b.amountGt.None? && !b.approvalMissing && Blank(b.channel) && Blank(b.domain)
      && b.newAction.None? && b.unknownRisk.None?
    {
      problems := problems + [prefix + " must set at least one condition field"];
    }
  }

  method ValidateAllowed(prefix: string, a: Allowed, before: seq<string>) returns (problems: seq<string>)
    ensures before <= problems
    ensures problems == before <==> ValidAllowed(a)
  {
    problems := ValidateSelector(prefix, a.who, false, before);
    problems := ValidateStringSet(prefix + ".values", a.values, problems);
    if a.values == [] {
      problems := problems + [prefix + ".values must contain at least one value"];
    }
  }

  /** The clauses that name no order: the first half of the gate's rules. */
  method ValidateLimits(prefix: string, g: Gate, before: seq<string>) returns (problems: seq<string>)
    ensures before <= problems
    ensures problems == before <==>
              && (g.requireApproval.Some? ==>
                    && ValidSelector(g.requireApproval.value.who, false) && HasSelector(g.requireApproval.value.who)
                    && ValidLimit(g.requireApproval.value.amount))
              && (g.maxAmount.Some? ==>
                    && ValidSelector(g.maxAmount.value.who, false) && HasSelector(g.maxAmount.value.who)
                    && g.maxAmount.value.amount.Some? && g.maxAmount.value.amount.value >= 0.0)
  {
    problems := before;
    if g.requireApproval.Some? {
      var a := g.requireApproval.value;
      problems := RequireSelector(prefix + ".require_approval", a.who, problems);
      problems := ValidateLimit(prefix + ".require_approval.amount_gt", a.amount, problems);
    }
    if g.maxAmount.Some? {
      var m := g.maxAmount.value;
      problems := RequireSelector(prefix + ".max_amount", m.who, problems);
      if m.amount.None? {
        problems := problems + [prefix + ".max_amount.amount is required"];
      } else {
        problems := ValidateLimit(prefix + ".max_amount.amount", m.amount, problems);
      }
    }
  }

  method ValidateLists(prefix: string, g: Gate, before: seq<string>) returns (problems: seq<string>)
    ensures before <= problems
    ensures problems == before <==>
              && (g.allowedChannels.Some? ==> ValidAllowed(g.allowedChannels.value))
              && (g.allowedDomains.Some? ==> ValidAllowed(g.allowedDomains.value))
              && (g.forbidNewAction.Some? ==> ValidSelector(g.forbidNewAction.value, false))
              && (g.forbidUnknownRisk.Some? ==> ValidSelector(g.forbidUnknownRisk.value, false))
  {
    problems := before;
    if g.allowedChannels.Some? {
      problems := ValidateAllowed(prefix + ".allowed_channels", g.allowedChannels.value, problems);
    }
    if g.allowedDomains.Some? {
      problems := ValidateAllowed(prefix + ".allowed_domains", g.allowedDomains.value, problems);
    }
    if g.forbidNewAction.Some? {
      problems := ValidateSelector(prefix + ".forbid_new_action", g.forbidNewAction.value, false, problems);
    }
    if g.forbidUnknownRisk.Some? {
      problems := ValidateSelector(prefix + ".forbid_unknown_risk", g.forbidUnknownRisk.value, false, problems);
    }
  }

  method ValidateOrder(prefix: string, o: Order, before: seq<string>) returns (problems: seq<string>)
    ensures before <= problems
    ensures problems == before <==> ValidSelector(o.earlier, true) && ValidSelector(o.later, true)
  {
    problems := ValidateSelector(prefix + ".before", o.earlier, true, before);
    problems := ValidateSelector(prefix + ".after", o.later, true, problems);
  }

  method ValidateGate(prefix: string, g: Gate, before: seq<string>) returns (problems: seq<string>)
    ensures before <= problems
    ensures problems == before <==> ValidGate(g)
  {
    problems := before;
    if Blank(g.name) {
      problems := problems + [prefix + ".name is required"];
    }
    if Clauses(g) != 1 {
      problems := problems + [prefix + " must set exactly one gate clause"];
    }
    if g.blockIf.Some? {
      problems := ValidateBlockIf(prefix + ".block_if", g.blockIf.value, problems);
    }
    if g.requireOrder.Some? {
      problems := ValidateOrder(prefix + ".require_order", g.requireOrder.value, problems);
    }
    problems := ValidateLimits(prefix, g, problems);
    problems := ValidateLists(prefix, g, problems);
  }

  method ValidateGateFile(f: GateFile) returns (problems: seq<string>)
    ensures problems == [] <==> ValidGateFile(f)
  {
    problems := [];
    if f.version != VERSION {
      problems := problems + ["schema_version must be " + VERSION];
    }
    if f.gates == [] {
      problems := problems + ["release_gates must contain at least one gate"];
    }
    var headed := problems == [];
    for n := 0 to |f.gates|
      invariant problems == [] <==> headed && forall i | 0 <= i < n :: ValidGate(f.gates[i])
    {
      problems := ValidateGate("release_gates[" + Dec(n) + "]", f.gates[n], problems);
    }
  }

  // ------------------------------------------------------------- translation

  predicate Leads(table: map<string, Translation>, i: nat, g: Gate) {
    GateId(i) in table && table[GateId(i)] == Translation(g.name, GateType(g))
  }

  lemma LeadsStill(table: map<string, Translation>, i: nat, g: Gate, n: nat, t: Translation)
    requires Leads(table, i, g) && i < n
    ensures Leads(table[GateId(n) := t], i, g)
  {
    GateIdsDiffer(i, n);
  }

  /** One assertion for each gate, in order; the table leads from an assertion's id to its gate. */
  method Translate(f: GateFile) returns (file: File, table: map<string, Translation>)
    ensures file == Compiled(f)
    ensures forall i | 0 <= i < |f.gates| :: Leads(table, i, f.gates[i])
  {
    var assertions: seq<Assertion> := [];
    table := map[];
    for n := 0 to |f.gates|
      invariant assertions == Compiled(f).assertions[..n]
      invariant forall i | 0 <= i < n :: Leads(table, i, f.gates[i])
    {
      var g := f.gates[n];
      var t := Translation(g.name, GateType(g));
      forall i | 0 <= i < n
        ensures Leads(table[GateId(n) := t], i, f.gates[i])
      {
        LeadsStill(table, i, f.gates[i], n, t);
      }
      assertions := assertions + [Compile(n, g)];
      table := table[GateId(n) := t];
    }
    file := File(VERSION, assertions);
  }

  // -------------------------------------------------------------- evaluation

  ghost function HoldingOf(gates: seq<Gate>, keys: set<string>, run: seq<Interaction>): nat {
    if gates == [] then 0
    else HoldingOf(gates[..|gates| - 1], keys, run) + if Holds(gates[|gates| - 1], keys, run) then 1 else 0
  }

  lemma {:induction false} AllHoldIff(gates: seq<Gate>, keys: set<string>, run: seq<Interaction>)
    ensures HoldingOf(gates, keys, run) <= |gates|
    ensures HoldingOf(gates, keys, run) == |gates| <==> forall i | 0 <= i < |gates| :: Holds(gates[i], keys, run)
  {
    if gates != [] {
      AllHoldIff(gates[..|gates| - 1], keys, run);
    }
  }

  /** The result of one gate says what the gate says when read directly. */
  ghost predicate Faithful(g: Gate, i: nat, keys: set<string>, run: seq<Interaction>, r: GateResult) {
    && r.name == g.name && r.kind == GateType(g) && r.id == GateId(i)
    && r.status == (if Holds(g, keys, run) then Passed else Failed)
    && (g.requireOrder.None? ==> r.evidence == Evidence(Violations(g, keys, run), None, |Violations(g, keys, run)|))
    && (g.requireOrder.Some? ==> (Holds(g, keys, run) <==> r.evidence.pair.Some?) && OrderShown(g, run, r.evidence))
  }

  /** The results so far: one faithful result for each of the first n gates, and their counts. */
  ghost predicate Summarized(gates: seq<Gate>, n: nat, keys: set<string>, run: seq<Interaction>,
                             status: Status, s: Summary, results: seq<GateResult>)
    requires n <= |gates|
  {
    && |results| == n && (forall i | 0 <= i < n :: Faithful(gates[i], i, keys, run, results[i]))
    && s == Summary(n, HoldingOf(gates[..n], keys, run), n - HoldingOf(gates[..n], keys, run), 0)
    && status == if s.failed == 0 then Passed else Failed
  }

  /** What an outcome must say for the gate it was compiled from. */
  ghost predicate Agreeing(g: Gate, i: nat, keys: set<string>, run: seq<Interaction>, o: Outcome) {
    && o.id == GateId(i)
    && o.status == (if Holds(g, keys, run) then Passed else Failed)
    && (g.requireOrder.None? ==> o.evidence == Evidence(Violations(g, keys, run), None, |Violations(g, keys, run)|))
    && (g.requireOrder.Some? ==> (Holds(g, keys, run) <==> o.evidence.pair.Some?) && OrderShown(g, run, o.evidence))
  }

  lemma HoldingStep(gates: seq<Gate>, n: nat, keys: set<string>, run: seq<Interaction>)
    requires n < |gates|
    ensures HoldingOf(gates[..n + 1], keys, run) ==
            HoldingOf(gates[..n], keys, run) + if Holds(gates[n], keys, run) then 1 else 0
    ensures HoldingOf(gates[..n], keys, run) <= n
  {
    assert gates[..n + 1][..n] == gates[..n];
    AllHoldIff(gates[..n], keys, run);
  }

  function Add(status: Status, s: Summary, one: Status): (Status, Summary) {
    var s' := s.(total := s.total + 1);
    match one
    case Passed => (status, s'.(passed := s.passed + 1))
    case Failed => (Failed, s'.(failed := s.failed + 1))
    case Unsupported => (Failed, s'.(unsupported := s.unsupported + 1))
  }

  /** Every result is counted once, and one that has not passed fails the evaluation. */
  ghost predicate CountsAll(status: Status, s: Summary) {
    && s.total == s.passed + s.failed + s.unsupported
    && s.passed >= 0 && s.failed >= 0 && s.unsupported >= 0
    && status == if s.passed == s.total then Passed else Failed
  }

  lemma AddCountsAll(status: Status, s: Summary, one: Status)
    requires CountsAll(status, s)
    ensures CountsAll(Add(status, s, one).0, Add(status, s, one).1)
    ensures Add(status, s, one).1.total == s.total + 1
  {
  }

  lemma SummaryStep(gates: seq<Gate>, n: nat, keys: set<string>, run: seq<Interaction>,
                    status: Status, s: Summary, results: seq<GateResult>, o: Outcome)
    requires n < |gates| && Summarized(gates, n, keys, run, status, s, results)
    requires Agreeing(gates[n], n, keys, run, o)
    ensures
      var (status', s') := Add(status, s, o.status);
      Summarized(gates, n + 1, keys, run, status', s',
        results + [GateResult(gates[n].name, GateType(gates[n]), o.id, o.status, o.evidence)])
  {
    HoldingStep(gates, n, keys, run);
  }

  method Summarize(gates: seq<Gate>, outcomes: seq<Outcome>, table: map<string, Translation>,
                   ghost keys: set<string>, ghost run: seq<Interaction>)
    returns (status: Status, s: Summary, results: seq<GateResult>)
    requires |outcomes| == |gates|
    requires forall i | 0 <= i < |gates| :: Agreeing(gates[i], i, keys, run, outcomes[i])
    requires forall i | 0 <= i < |gates| :: Leads(table, i, gates[i])
    ensures Summarized(gates, |gates|, keys, run, status, s, results)
  {
    status, s, results := Passed, Summary(0, 0, 0, 0), [];
    for n := 0 to |outcomes|
      invariant Summarized(gates, n, keys, run, status, s, results)
    {
      var o := outcomes[n];
      assert Leads(table, n, gates[n]) && Agreeing(gates[n], n, keys, run, o);
      SummaryStep(gates, n, keys, run, status, s, results, o);
      var t := table[o.id];
      results := results + [GateResult(t.name, t.kind, o.id, o.status, o.evidence)];
      var (status', s') := Add(status, s, o.status);
      status, s := status', s';
    }
  }

  /** One faithful result for each gate, their counts, and a verdict that is Passed exactly when
      every gate holds. */
  ghost predicate Reports(gates: seq<Gate>, keys: set<string>, run: seq<Interaction>, e: Evaluation) {
    && |e.results| == |gates|
    && (forall i | 0 <= i < |gates| :: Faithful(gates[i], i, keys, run, e.results[i]))
    && e.summary == Summary(|gates|, HoldingOf(gates, keys, run), |gates| - HoldingOf(gates, keys, run), 0)
    && e.status == if forall i | 0 <= i < |gates| :: Holds(gates[i], keys, run) then Passed else Failed
  }

  lemma SummaryReports(gates: seq<Gate>, keys: set<string>, run: seq<Interaction>, e: Evaluation)
    requires Summarized(gates, |gates|, keys, run, e.status, e.summary, e.results)
    ensures Reports(gates, keys, run, e)
  {
    assert gates[..|gates|] == gates;
    AllHoldIff(gates, keys, run);
  }

  /** A gate file is refused exactly when it is not valid.  Otherwise there is one faithful result
      for each gate and a summary of them. */
  method Evaluate(run: seq<Interaction>, f: GateFile, base: Option<seq<Interaction>>)
    returns (r: Result<Evaluation, seq<string>>)
    ensures r.Ok? <==> ValidGateFile(f)
    ensures r.Ok? ==> Reports(f.gates, BaseKeys(base), run, r.value) && r.value.assertions == Compiled(f)
  {
    var problems := ValidateGateFile(f);
    if problems != [] {
      return Err(problems);
    }
    ghost var keys := BaseKeys(base);
    var file, table := Translate(f);
    CompiledIsValid(f);
    // the compiled file is valid, so the evaluation cannot refuse it
    var evaluated := EvaluateWithOptions(run, file, base);
    var outcomes := evaluated.value;
    forall i | 0 <= i < |f.gates|
      ensures Agreeing(f.gates[i], i, keys, run, outcomes[i])
    {
      CompilationAgrees(i, f.gates[i], keys, run);
    }
    var status, s, results := Summarize(f.gates, outcomes, table, keys, run);
    SummaryReports(f.gates, keys, run, Evaluation(status, s, results, file));
    r := Ok(Evaluation(status, s, results, file));
  }
}
