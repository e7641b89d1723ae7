/** Enforcing a contract on a run: each interaction is judged by the key of its action, and the
    violations of one kind and key are reported together. */
module ContractEnforcer {
  import opened Actions
  import opened Contracts
  import opened Results
  import opened Sorting
  import opened Text

  datatype Kind = ForbiddenAction | ApprovalMissing | NewUnapproved

  datatype Violation =
    Violation(kind: Kind, who: Selector, effect: string, reason: string, evidence: seq<Interaction>)

  datatype Summary = Summary(total: nat, forbidden: nat, restricted: nat, unapproved: nat)

  /** What is wrong with one interaction: the kind of violation and the key of the action. */
  datatype Finding = Finding(kind: Kind, key: string)

  // ---------------------------------------------------------------- judging

  /** The last action of the list with this key. */
  function Lookup(actions: seq<Action>, key: string): Option<Action> {
    if actions == [] then None
    else if Key(actions[|actions| - 1].who) == key then Some(actions[|actions| - 1])
    else Lookup(actions[..|actions| - 1], key)
  }

  predicate HasApproval(x: Interaction, a: Action) {
    || x.approved
    || (a.approval.Some? && !Blank(a.approval.value.evidencePath) && a.approval.value.evidencePath in x.evidencePaths)
  }

  function Judge(f: File, x: Interaction): Option<Finding> {
    match KeyOf(x)
    case None => None
    case Some(key) =>
      if Lookup(f.forbidden, key).Some? then Some(Finding(ForbiddenAction, key))
      else if Lookup(f.restricted, key).Some? then
        var a := Lookup(f.restricted, key).value;
        if a.requiresApproval && !HasApproval(x, a) then Some(Finding(ApprovalMissing, key)) else None
      else if Lookup(f.allowed, key).Some? then None
      else Some(Finding(NewUnapproved, key))
  }

  function Evidence(f: File, xs: seq<Interaction>, p: Finding): seq<Interaction> {
    Filter(xs, x => Judge(f, x) == Some(p))
  }

  /** The findings of a run, each once, in the order they first appear. */
  function Findings(f: File, xs: seq<Interaction>): seq<Finding> {
    if xs == [] then []
    else
      var before, found := Findings(f, xs[..|xs| - 1]), Judge(f, xs[|xs| - 1]);
      if found.Some? && found.value !in before then before + [found.value] else before
  }

  function ReportOn(f: File, p: Finding, evidence: seq<Interaction>): Violation {
    var who :=
      if evidence != [] && SelectorOf(evidence[0]).Some? then SelectorOf(evidence[0]).value
      else Selector("", "", "");
    match p.kind
    case ForbiddenAction =>
      var a := Lookup(f.forbidden, p.key);
      Violation(p.kind, who, if a.Some? then a.value.effect else "", if a.Some? then TrimSpace(a.value.reason) else "", evidence)
    case ApprovalMissing =>
      var a := Lookup(f.restricted, p.key);
      Violation(p.kind, who, if a.Some? then a.value.effect else "",
        "restricted action requires approval but no approval evidence was captured", evidence)
    case NewUnapproved =>
      Violation(p.kind, who, if evidence != [] then evidence[0].effect else "",
        "action is not present in allowed_actions, restricted_actions, or forbidden_actions", evidence)
  }

  function Report(f: File, xs: seq<Interaction>, p: Finding): Violation {
    ReportOn(f, p, Evidence(f, xs, p))
  }

  function Reports(f: File, xs: seq<Interaction>): seq<Violation> {
    var found := Findings(f, xs);
    seq(|found|, i requires 0 <= i < |found| => Report(f, xs, found[i]))
  }

  // ------------------------------------------------- judging, over the lists

  ghost predicate Lists(actions: seq<Action>, key: string) {
    exists a :: a in actions && Key(a.who) == key
  }

  /** The action is the last one of the list with this key. */
  ghost predicate LastListed(actions: seq<Action>, key: string, a: Action) {
    exists i :: 0 <= i < |actions| && actions[i] == a && Key(a.who) == key
                && forall j | i < j < |actions| :: Key(actions[j].who) != key
  }

  /** The interaction carries evidence of approval, in general or where the action wants it. */
  predicate ShowsApproval(x: Interaction, a: Action) {
    || x.approved
    || (a.approval.Some? && !Blank(a.approval.value.evidencePath) && a.approval.value.evidencePath in x.evidencePaths)
  }

  /** What is wrong with an interaction: its action is forbidden; it is restricted, needs an approval
      and shows none; or it is in none of the three lists. */
  ghost predicate AtFault(f: File, x: Interaction, kind: Kind) {
    && KeyOf(x).Some?
    && var key := KeyOf(x).value;
    match kind
    case ForbiddenAction => Lists(f.forbidden, key)
    case ApprovalMissing =>
      && !Lists(f.forbidden, key)
      && exists a :: LastListed(f.restricted, key, a) && a.requiresApproval && !ShowsApproval(x, a)
    case NewUnapproved => !Lists(f.forbidden, key) && !Lists(f.restricted, key) && !Lists(f.allowed, key)
  }

  lemma {:induction false} LookupListed(actions: seq<Action>, key: string)
    ensures Lookup(actions, key).Some? <==> Lists(actions, key)
    ensures Lookup(actions, key).Some? ==> LastListed(actions, key, Lookup(actions, key).value)
  {
    if actions != [] {
      var front, last := actions[..|actions| - 1], actions[|actions| - 1];
      assert actions == front + [last];
      if Key(last.who) == key {
        assert last in actions;
      } else {
        LookupListed(front, key);
        if Lookup(front, key).Some? {
          LastStays(front, last, key, Lookup(front, key).value);
        }
      }
    }
  }

  lemma LastStays(actions: seq<Action>, last: Action, key: string, a: Action)
    requires LastListed(actions, key, a) && Key(last.who) != key
    ensures LastListed(actions + [last], key, a)
  {
    var i :| 0 <= i < |actions| && actions[i] == a && Key(a.who) == key
             && forall j | i < j < |actions| :: Key(actions[j].who) != key;
    assert (actions + [last])[i] == a;
  }

  lemma LastUnique(actions: seq<Action>, key: string, a: Action, b: Action)
    requires LastListed(actions, key, a) && LastListed(actions, key, b)
    ensures a == b
  {
    var i :| 0 <= i < |actions| && actions[i] == a && forall j | i < j < |actions| :: Key(actions[j].who) != key;
    var k :| 0 <= k < |actions| && actions[k] == b && forall j | k < j < |actions| :: Key(actions[j].who) != key;
  }

  /** An interaction is judged by what is wrong with it, and by nothing else. */
  lemma JudgedIff(f: File, x: Interaction, kind: Kind)
    ensures (Judge(f, x).Some? && Judge(f, x).value.kind == kind) <==> AtFault(f, x, kind)
    ensures Judge(f, x).Some? ==> KeyOf(x) == Some(Judge(f, x).value.key)
  {
    if KeyOf(x).Some? {
      var key := KeyOf(x).value;
      LookupListed(f.forbidden, key);
      LookupListed(f.restricted, key);
      LookupListed(f.allowed, key);
      if kind == ApprovalMissing && Lookup(f.restricted, key).Some? {
        var a := Lookup(f.restricted, key).value;
        forall b | LastListed(f.restricted, key, b)
          ensures b == a
        {
          LastUnique(f.restricted, key, a, b);
        }
      }
    }
  }

  // -------------------------------------------------------------- properties

  lemma {:induction false} FindingsAre(f: File, xs: seq<Interaction>)
    ensures NoRepeats(Findings(f, xs))
    ensures forall p :: p in Findings(f, xs) <==> exists x :: x in xs && Judge(f, x) == Some(p)
  {
    if xs != [] {
      var front, last := xs[..|xs| - 1], xs[|xs| - 1];
      FindingsAre(f, front);
      assert xs == front + [last];
      assert last in xs;
    }
  }

  lemma EvidenceIs(f: File, xs: seq<Interaction>, p: Finding)
    ensures forall x :: x in Evidence(f, xs, p) <==> x in xs && Judge(f, x) == Some(p)
    ensures Evidence(f, xs, p) != [] <==> exists x :: x in xs && Judge(f, x) == Some(p)
  {
    FilterIs(xs, x => Judge(f, x) == Some(p));
    if Evidence(f, xs, p) != [] {
      assert Evidence(f, xs, p)[0] in Evidence(f, xs, p);
    }
  }

  /** Every violation carries exactly the interactions it is about, at least one, in run order. */
  lemma ReportIs(f: File, xs: seq<Interaction>, p: Finding)
    ensures forall x :: x in Report(f, xs, p).evidence <==> x in xs && Judge(f, x) == Some(p)
    ensures p in Findings(f, xs) <==> Report(f, xs, p).evidence != []
  {
    FindingsAre(f, xs);
    EvidenceIs(f, xs, p);
  }

  // ------------------------------------------------------------------- loops

  /** The index leads to the last action of the list with a key. */
  ghost predicate Indexes(index: map<string, Action>, actions: seq<Action>) {
    forall key :: Lookup(actions, key) == if key in index then Some(index[key]) else None
  }

  method IndexActions(actions: seq<Action>) returns (index: map<string, Action>)
    ensures Indexes(index, actions)
  {
    index := map[];
    for n := 0 to |actions|
      invariant Indexes(index, actions[..n])
    {
      assert actions[..n + 1][..n] == actions[..n];
      index := index[Key(actions[n].who) := actions[n]];
    }
    assert actions[..|actions|] == actions;
  }

  function KindName(kind: Kind): string {
    match kind
    case ForbiddenAction => "forbidden_action"
    case ApprovalMissing => "restricted_action_approval_missing"
    case NewUnapproved => "new_unapproved_action"
  }

  function ViolationKey(p: Finding): string {
    KindName(p.kind) + "\n" + p.key
  }

  lemma FirstLine(a: string, x: string, b: string, y: string)
    requires forall i | 0 <= i < |a| :: a[i] != '\n'
    requires forall i | 0 <= i < |b| :: b[i] != '\n'
    requires a + "\n" + x == b + "\n" + y
    ensures a == b && x == y
  {
    var s := a + "\n" + x;
    assert s[|a|] == '\n' && s[|b|] == '\n';
    assert s[..|a|] == a && s[..|b|] == b;
    assert forall i | 0 <= i < |a| :: s[i] == a[i];
    assert forall i | 0 <= i < |b| :: s[i] == b[i];
    assert |a| == |b|;
    assert s[|a| + 1..] == x && s[|b| + 1..] == y;
  }

  /** The kind ends at the first newline. */
  lemma ViolationKeyInjective(p: Finding, q: Finding)
    requires ViolationKey(p) == ViolationKey(q)
    ensures p == q
  {
    OneLine(p.kind);
    OneLine(q.kind);
    FirstLine(KindName(p.kind), p.key, KindName(q.kind), q.key);
    NamesDiffer(p.kind, q.kind);
  }

  lemma OneLine(kind: Kind)
    ensures forall i | 0 <= i < |KindName(kind)| :: KindName(kind)[i] != '\n'
  {
  }

  lemma NamesDiffer(a: Kind, b: Kind)
    requires KindName(a) == KindName(b)
    ensures a == b
  {
    assert |KindName(ForbiddenAction)| == 16 && |KindName(ApprovalMissing)| == 34 && |KindName(NewUnapproved)| == 21;
  }

  /** The table holds, under the key of this finding, the report on the interactions so far. */
  ghost predicate HeldAt(f: File, xs: seq<Interaction>, table: map<string, Violation>, p: Finding) {
    && (ViolationKey(p) in table <==> p in Findings(f, xs))
    && (ViolationKey(p) in table ==> table[ViolationKey(p)] == Report(f, xs, p))
  }

  ghost predicate Collected(f: File, xs: seq<Interaction>, table: map<string, Violation>, order: seq<string>) {
    order == Map(Findings(f, xs), ViolationKey) && forall p :: HeldAt(f, xs, table, p)
  }

  lemma FindingsSnoc(f: File, xs: seq<Interaction>, x: Interaction)
    ensures Findings(f, xs + [x]) == Findings(f, xs) +
            if Judge(f, x).Some? && Judge(f, x).value !in Findings(f, xs) then [Judge(f, x).value] else []
  {
    assert (xs + [x])[..|xs|] == xs;
  }

  lemma EvidenceSnoc(f: File, xs: seq<Interaction>, x: Interaction, p: Finding)
    ensures Evidence(f, xs + [x], p) == Evidence(f, xs, p) + if Judge(f, x) == Some(p) then [x] else []
  {
    FilterSnoc(xs, x, y => Judge(f, y) == Some(p));
  }

  lemma ReportMore(f: File, p: Finding, evidence: seq<Interaction>, x: Interaction)
    requires evidence != []
    ensures ReportOn(f, p, evidence + [x]) == ReportOn(f, p, evidence).(evidence := evidence + [x])
  {
    assert (evidence + [x])[0] == evidence[0];
  }

  lemma ReportSnoc(f: File, xs: seq<Interaction>, x: Interaction, p: Finding)
    ensures Report(f, xs + [x], p) ==
            if Judge(f, x) != Some(p) then Report(f, xs, p)
            else if p in Findings(f, xs) then Report(f, xs, p).(evidence := Report(f, xs, p).evidence + [x])
            else ReportOn(f, p, [x])
  {
    EvidenceSnoc(f, xs, x, p);
    ReportIs(f, xs, p);
    var evidence := Evidence(f, xs, p);
    if Judge(f, x) != Some(p) {
      assert Evidence(f, xs + [x], p) == evidence;
    } else if evidence == [] {
      assert Evidence(f, xs + [x], p) == [x];
    } else {
      ReportMore(f, p, evidence, x);
    }
  }

  lemma CollectedSame(f: File, xs: seq<Interaction>, x: Interaction, table: map<string, Violation>, order: seq<string>)
    requires Collected(f, xs, table, order) && Judge(f, x).None?
    ensures Collected(f, xs + [x], table, order)
  {
    FindingsSnoc(f, xs, x);
    var xs' := xs + [x];
    forall p: Finding
      ensures HeldAt(f, xs', table, p)
    {
      assert HeldAt(f, xs, table, p);
      ReportSnoc(f, xs, x, p);
    }
  }

  lemma HeldStep(f: File, xs: seq<Interaction>, x: Interaction, table: map<string, Violation>, p: Finding, q: Finding)
    requires Judge(f, x) == Some(q) && HeldAt(f, xs, table, p) && HeldAt(f, xs, table, q)
    ensures HeldAt(f, xs + [x], table[ViolationKey(q) := Report(f, xs + [x], q)], p)
  {
    FindingsSnoc(f, xs, x);
    if p != q {
      if ViolationKey(p) == ViolationKey(q) {
        ViolationKeyInjective(p, q);
      }
      ReportSnoc(f, xs, x, p);
    }
  }

  lemma OrderStep(f: File, xs: seq<Interaction>, x: Interaction, q: Finding)
    requires Judge(f, x) == Some(q)
    ensures Map(Findings(f, xs + [x]), ViolationKey) ==
            Map(Findings(f, xs), ViolationKey) + if q in Findings(f, xs) then [] else [ViolationKey(q)]
  {
    FindingsSnoc(f, xs, x);
  }

  lemma CollectedStep(
    f: File, xs: seq<Interaction>, x: Interaction, table: map<string, Violation>, order: seq<string>, q: Finding)
    requires Collected(f, xs, table, order) && Judge(f, x) == Some(q)
    ensures Collected(f, xs + [x], table[ViolationKey(q) := Report(f, xs + [x], q)],
                      if ViolationKey(q) in table then order else order + [ViolationKey(q)])
  {
    var xs', table' := xs + [x], table[ViolationKey(q) := Report(f, xs + [x], q)];
    assert HeldAt(f, xs, table, q);
    OrderStep(f, xs, x, q);
    forall p: Finding
      ensures HeldAt(f, xs', table', p)
    {
      assert HeldAt(f, xs, table, p);
      HeldStep(f, xs, x, table, p, q);
    }
  }

  /** A violation with a new key is stored; otherwise its evidence joins the one that is there. */
  method AddViolation(table: map<string, Violation>, order: seq<string>, key: string, v: Violation)
    returns (table': map<string, Violation>, order': seq<string>)
    ensures table' == table[key := if key in table then table[key].(evidence := table[key].evidence + v.evidence) else v]
    ensures order' == if key in table then order else order + [key]
  {
    if key !in table {
      table', order' := table[key := v], order + [key];
    } else {
      table', order' := table[key := table[key].(evidence := table[key].evidence + v.evidence)], order;
    }
  }

  /** The three lists are asked in turn: forbidden, restricted, allowed. */
  method Inspect(f: File, x: Interaction, allowed: map<string, Action>, restricted: map<string, Action>,
                 forbidden: map<string, Action>)
    returns (found: Option<Finding>)
    requires Indexes(allowed, f.allowed) && Indexes(restricted, f.restricted) && Indexes(forbidden, f.forbidden)
    ensures found == Judge(f, x)
  {
    var who := SelectorOf(x);
    if who.None? {
      return None;
    }
    var key := Key(who.value);
    if key in forbidden {
      return Some(Finding(ForbiddenAction, key));
    }
    if key in restricted {
      var a := restricted[key];
      return if a.requiresApproval && !HasApproval(x, a) then Some(Finding(ApprovalMissing, key)) else None;
    }
    found := if key in allowed then None else Some(Finding(NewUnapproved, key));
  }

  /** The violation one interaction shows. */
  method Describe(f: File, x: Interaction, p: Finding, restricted: map<string, Action>, forbidden: map<string, Action>)
    returns (v: Violation)
    requires Judge(f, x) == Some(p)
    requires Indexes(restricted, f.restricted) && Indexes(forbidden, f.forbidden)
    ensures v == ReportOn(f, p, [x])
  {
    var who := SelectorOf(x).value;
    match p.kind
    case ForbiddenAction =>
      var a := forbidden[p.key];
      v := Violation(ForbiddenAction, who, a.effect, TrimSpace(a.reason), [x]);
    case ApprovalMissing =>
      var a := restricted[p.key];
      v := Violation(ApprovalMissing, who, a.effect,
        "restricted action requires approval but no approval evidence was captured", [x]);
    case NewUnapproved =>
      v := Violation(NewUnapproved, who, x.effect,
        "action is not present in allowed_actions, restricted_actions, or forbidden_actions", [x]);
  }

  lemma AddedIs(
    f: File, xs: seq<Interaction>, x: Interaction, table: map<string, Violation>, order: seq<string>, p: Finding)
    requires Collected(f, xs, table, order) && Judge(f, x) == Some(p)
    ensures
      var key := ViolationKey(p);
      var v := if key in table then table[key].(evidence := table[key].evidence + [x]) else ReportOn(f, p, [x]);
      Collected(f, xs + [x], table[key := v], if key in table then order else order + [key])
  {
    assert HeldAt(f, xs, table, p);
    ReportSnoc(f, xs, x, p);
    CollectedStep(f, xs, x, table, order, p);
  }

  method Collect(f: File, xs: seq<Interaction>) returns (table: map<string, Violation>, order: seq<string>)
    ensures Collected(f, xs, table, order)
  {
    var allowed := IndexActions(f.allowed);
    var restricted := IndexActions(f.restricted);
    var forbidden := IndexActions(f.forbidden);
    table, order := map[], [];
    for n := 0 to |xs|
      invariant Collected(f, xs[..n], table, order)
    {
      var x := xs[n];
      assert xs[..n + 1] == xs[..n] + [x];
      var found := Inspect(f, x, allowed, restricted, forbidden);
      if found.None? {
        CollectedSame(f, xs[..n], x, table, order);
      } else {
        var p := found.value;
        var v := Describe(f, x, p, restricted, forbidden);
        AddedIs(f, xs[..n], x, table, order, p);
        table, order := AddViolation(table, order, ViolationKey(p), v);
      }
    }
    assert xs[..|xs|] == xs;
  }

  function Counted(vs: seq<Violation>, kind: Kind): nat {
    |Filter(vs, (v: Violation) => v.kind == kind)|
  }

  function SummaryOf(vs: seq<Violation>): Summary {
    Summary(|vs|, Counted(vs, ForbiddenAction), Counted(vs, ApprovalMissing), Counted(vs, NewUnapproved))
  }

  method Summarize(table: map<string, Violation>, order: seq<string>, ghost want: seq<Violation>)
    returns (violations: seq<Violation>, s: Summary)
    requires |want| == |order| && forall i | 0 <= i < |order| :: order[i] in table && table[order[i]] == want[i]
    ensures violations == want && s == SummaryOf(want)
  {
    violations, s := [], Summary(0, 0, 0, 0);
    for n := 0 to |order|
      invariant violations == want[..n] && s == SummaryOf(violations)
    {
      var v := table[order[n]];
      CountSnoc(violations, v);
      violations := violations + [v];
      s := s.(total := s.total + 1);
      match v.kind
      case ForbiddenAction => s := s.(forbidden := s.forbidden + 1);
      case ApprovalMissing => s := s.(restricted := s.restricted + 1);
      case NewUnapproved => s := s.(unapproved := s.unapproved + 1);
    }
  }

  /** A contract that is not valid is refused; otherwise the violations of the run are reported and
      counted, and the run passes exactly when there is none. */
  method Evaluate(f: File, xs: seq<Interaction>) returns (r: Result<(bool, Summary, seq<Violation>), seq<string>>)
    ensures r.Ok? <==> ValidFile(f)
    ensures r.Ok? ==> r.value.2 == Reports(f, xs) && r.value.1 == SummaryOf(Reports(f, xs))
    ensures r.Ok? ==> (r.value.0 <==> NoFaults(f, xs)) && ReportsFaults(f, xs, r.value.2)
  {
    var problems := ValidateFile(f);
    if problems != [] {
      return Err(problems);
    }
    var table, order := Collect(f, xs);
    forall i | 0 <= i < |order|
      ensures order[i] in table && table[order[i]] == Reports(f, xs)[i]
    {
      assert HeldAt(f, xs, table, Findings(f, xs)[i]);
    }
    var violations, s := Summarize(table, order, Reports(f, xs));
    NoFaultsIff(f, xs);
    FaultsReported(f, xs);
    r := Ok((s.total == 0, s, violations));
  }

  lemma CountSnoc(vs: seq<Violation>, v: Violation)
    ensures forall kind :: Counted(vs + [v], kind) == Counted(vs, kind) + if v.kind == kind then 1 else 0
  {
    forall kind
      ensures Counted(vs + [v], kind) == Counted(vs, kind) + if v.kind == kind then 1 else 0
    {
      FilterSnoc(vs, v, (w: Violation) => w.kind == kind);
    }
  }

  /** Some violation of this kind has the interaction among its evidence. */
  ghost predicate Reported(vs: seq<Violation>, x: Interaction, kind: Kind) {
    exists i :: 0 <= i < |vs| && vs[i].kind == kind && x in vs[i].evidence
  }

  /** The violations are exactly the faults of the run's interactions. */
  ghost predicate ReportsFaults(f: File, xs: seq<Interaction>, vs: seq<Violation>) {
    forall x, kind :: Reported(vs, x, kind) <==> x in xs && AtFault(f, x, kind)
  }

  ghost predicate NoFaults(f: File, xs: seq<Interaction>) {
    forall x, kind | x in xs :: !AtFault(f, x, kind)
  }

  lemma ReportKind(f: File, xs: seq<Interaction>, p: Finding)
    ensures Report(f, xs, p).kind == p.kind
  {
  }

  lemma FaultIsReported(f: File, xs: seq<Interaction>, x: Interaction, kind: Kind)
    requires x in xs && AtFault(f, x, kind)
    ensures Reported(Reports(f, xs), x, kind)
  {
    JudgedIff(f, x, kind);
    FindingsAre(f, xs);
    var p := Judge(f, x).value;
    assert p in Findings(f, xs);
    var i :| 0 <= i < |Findings(f, xs)| && Findings(f, xs)[i] == p;
    ReportIs(f, xs, p);
    ReportKind(f, xs, p);
    assert Reports(f, xs)[i] == Report(f, xs, p);
  }

  lemma ReportedIsFault(f: File, xs: seq<Interaction>, x: Interaction, kind: Kind)
    requires Reported(Reports(f, xs), x, kind)
    ensures x in xs && AtFault(f, x, kind)
  {
    var i :| 0 <= i < |Reports(f, xs)| && Reports(f, xs)[i].kind == kind && x in Reports(f, xs)[i].evidence;
    var p := Findings(f, xs)[i];
    assert Reports(f, xs)[i] == Report(f, xs, p);
    ReportIs(f, xs, p);
    ReportKind(f, xs, p);
    JudgedIff(f, x, kind);
  }

  lemma FaultsReported(f: File, xs: seq<Interaction>)
    ensures ReportsFaults(f, xs, Reports(f, xs))
  {
    forall x, kind
      ensures Reported(Reports(f, xs), x, kind) <==> x in xs && AtFault(f, x, kind)
    {
      if Reported(Reports(f, xs), x, kind) {
        ReportedIsFault(f, xs, x, kind);
      }
      if x in xs && AtFault(f, x, kind) {
        FaultIsReported(f, xs, x, kind);
      }
    }
  }

  lemma NoFaultsIff(f: File, xs: seq<Interaction>)
    ensures NoFaults(f, xs) <==> Findings(f, xs) == []
  {
    PassedIff(f, xs);
    forall x, kind | x in xs
      ensures AtFault(f, x, kind) ==> Judge(f, x).Some?
    {
      JudgedIff(f, x, kind);
    }
    forall x | x in xs && Judge(f, x).Some?
      ensures AtFault(f, x, Judge(f, x).value.kind)
    {
      JudgedIff(f, x, Judge(f, x).value.kind);
    }
  }

  /** What a violation says of its action: the effect and the reason the contract gives it, or the effect
      seen for an action the contract does not have. */
  ghost predicate Tells(f: File, p: Finding, v: Violation) {
    && v.evidence != [] && SelectorOf(v.evidence[0]) == Some(v.who)
    && match p.kind
       case ForbiddenAction =>
         exists a :: LastListed(f.forbidden, p.key, a) && v.effect == a.effect && v.reason == TrimSpace(a.reason)
       case ApprovalMissing =>
         exists a :: LastListed(f.restricted, p.key, a) && v.effect == a.effect
       case NewUnapproved => v.effect == v.evidence[0].effect
  }

  lemma ReasonSays(f: File, xs: seq<Interaction>, p: Finding)
    ensures
      var reason := Report(f, xs, p).reason;
      && (p.kind == ApprovalMissing ==>
            reason == "restricted action requires approval but no approval evidence was captured")
      && (p.kind == NewUnapproved ==>
            reason == "action is not present in allowed_actions, restricted_actions, or forbidden_actions")
  {
  }

  /** A report names the action of its first interaction and tells what the contract says of it. */
  lemma ReportSays(f: File, xs: seq<Interaction>, p: Finding)
    requires p in Findings(f, xs)
    ensures Tells(f, p, Report(f, xs, p))
  {
    ReportIs(f, xs, p);
    var evidence := Evidence(f, xs, p);
    assert evidence[0] in evidence;
    EvidenceIs(f, xs, p);
    FoundSelected(f, evidence[0]);
    FoundListed(f, evidence[0], p);
    JudgedSays(f, evidence, p);
  }

  lemma FoundSelected(f: File, x: Interaction)
    requires Judge(f, x).Some?
    ensures SelectorOf(x).Some?
  {
  }

  lemma FoundListed(f: File, x: Interaction, p: Finding)
    requires Judge(f, x) == Some(p)
    ensures p.kind == ForbiddenAction ==> Lookup(f.forbidden, p.key).Some?
    ensures p.kind == ApprovalMissing ==> Lookup(f.restricted, p.key).Some?
  {
    var key := KeyOf(x).value;
    assert p.key == key;
  }

  lemma WhoIs(f: File, evidence: seq<Interaction>, p: Finding)
    requires evidence != [] && SelectorOf(evidence[0]).Some?
    ensures ReportOn(f, p, evidence).evidence == evidence
    ensures SelectorOf(evidence[0]) == Some(ReportOn(f, p, evidence).who)
  {
  }

  lemma JudgedSays(f: File, evidence: seq<Interaction>, p: Finding)
    requires evidence != [] && SelectorOf(evidence[0]).Some?
    requires p.kind == ForbiddenAction ==> Lookup(f.forbidden, p.key).Some?
    requires p.kind == ApprovalMissing ==> Lookup(f.restricted, p.key).Some?
    ensures Tells(f, p, ReportOn(f, p, evidence))
  {
    WhoIs(f, evidence, p);
    if p.kind == ForbiddenAction {
      LookupListed(f.forbidden, p.key);
    } else if p.kind == ApprovalMissing {
      LookupListed(f.restricted, p.key);
    }
  }

  function Judgements(f: File, xs: seq<Interaction>): seq<Option<Finding>> {
    seq(|xs|, i requires 0 <= i < |xs| => Judge(f, xs[i]))
  }

  /** Each finding stands at the place where it is first made. */
  ghost predicate Placed(js: seq<Option<Finding>>, found: seq<Finding>, at: seq<nat>) {
    && |at| == |found|
    && (forall i | 0 <= i < |at| :: at[i] < |js| && js[at[i]] == Some(found[i]))
    && (forall i, k | 0 <= i < |at| && 0 <= k < at[i] :: js[k] != Some(found[i]))
    && (forall i, j | 0 <= i < j < |at| :: at[i] < at[j])
  }

  lemma PlacedNext(js: seq<Option<Finding>>, found: seq<Finding>, at: seq<nat>, p: Finding)
    requires Placed(js, found, at) && forall k | 0 <= k < |js| :: js[k] != Some(p)
    ensures Placed(js + [Some(p)], found + [p], at + [|js|])
  {
  }

  /** The findings come in the order in which the run first shows them. */
  lemma {:induction false} FoundInOrder(f: File, xs: seq<Interaction>) returns (at: seq<nat>)
    ensures Placed(Judgements(f, xs), Findings(f, xs), at)
  {
    at := [];
    if xs != [] {
      var front, found := xs[..|xs| - 1], Judge(f, xs[|xs| - 1]);
      at := FoundInOrder(f, front);
      var js, before := Judgements(f, front), Findings(f, front);
      assert Judgements(f, xs) == js + [found];
      if found.Some? && found.value !in before {
        FindingsAre(f, front);
        forall k | 0 <= k < |js|
          ensures js[k] != found
        {
          assert front[k] in front;
        }
        PlacedNext(js, before, at, found.value);
        at := at + [|js|];
      }
    }
  }

  lemma PassedIff(f: File, xs: seq<Interaction>)
    ensures Findings(f, xs) == [] <==> forall x | x in xs :: Judge(f, x).None?
  {
    FindingsAre(f, xs);
    if Findings(f, xs) != [] {
      assert Findings(f, xs)[0] in Findings(f, xs);
    }
    forall x | x in xs && Judge(f, x).Some?
      ensures Judge(f, x).value in Findings(f, xs)
    {
    }
  }
}
