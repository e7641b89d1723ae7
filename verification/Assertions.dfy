/** Count and ordering assertions over a recorded run: the selector semantics, the validation rules
    and the evaluation.  What Stagehand's classifiers observe in an interaction (side effect, amount,
    approval, destination, channel, domain) is part of the interaction here. */
module Assertions {
  import opened Results
  import opened Sorting
  import opened StringSets
  import opened Text

  datatype Interaction = Interaction(
    id: string, sequence: int, service: string, operation: string, tier: string, events: seq<string>,
    sideEffect: string, amount: Option<real>, approved: bool,
    destinationType: string, channel: string, domain: string)

  datatype Match = Match(
    service: string, operation: string, tool: string, interactionId: string, eventType: string, tier: string,
    sideEffect: string, destinationType: string, amountGt: Option<real>, approvalMissing: Option<bool>,
    channel: string, channelNotIn: seq<string>, domain: string, domainNotIn: seq<string>,
    newAction: Option<bool>, unknownRisk: Option<bool>)

  const ANY_MATCH := Match("", "", "", "", "", "", "", "", None, None, "", [], "", [], None, None)

  datatype Count = Count(equals: Option<int>, min: Option<int>, max: Option<int>)

  datatype Kind = Counting | Ordering | Other(name: string)

  datatype Assertion =
    Assertion(id: string, kind: Kind, selector: Match, count: Count, before: Option<Match>, after: Option<Match>)

  datatype File = File(version: string, assertions: seq<Assertion>)

  datatype Status = Passed | Failed | Unsupported

  datatype Evidence = Evidence(matched: seq<Interaction>, pair: Option<(Interaction, Interaction)>, count: nat)

  datatype Outcome = Outcome(id: string, status: Status, evidence: Evidence)

  const VERSION := "v1alpha1"
  const TOOL_SERVICE := "stagehand.tool"
  const UNKNOWN := "unknown"

  // --------------------------------------------------------------- selectors

  function ActionKey(x: Interaction): string {
    if TrimSpace(x.service) == TOOL_SERVICE then "tool:" + x.operation
    else "service:" + x.service + "\noperation:" + x.operation
  }

  /** The action keys of the base run; without a base run every action is new. */
  function BaseKeys(base: Option<seq<Interaction>>): set<string> {
    match base
    case None => {}
    case Some(xs) => set x | x in xs :: ActionKey(x)
  }

  function NormalizeTool(m: Match): Match {
    var tool := TrimSpace(m.tool);
    if tool == "" then m else m.(service := TOOL_SERVICE, operation := tool)
  }

  function Folded(s: string): string {
    ToLower(TrimSpace(s))
  }

  predicate StringInSet(value: string, values: seq<string>) {
    Folded(value) != "" && exists i :: 0 <= i < |values| && Folded(values[i]) == Folded(value)
  }

  predicate Meets(keys: set<string>, x: Interaction, given: Match) {
    var m := NormalizeTool(given);
    && (m.service != "" ==> x.service == m.service)
    && (m.operation != "" ==> x.operation == m.operation)
    && (m.interactionId != "" ==> x.id == m.interactionId)
    && (m.tier != "" ==> x.tier == m.tier)
    && (m.eventType != "" ==> m.eventType in x.events)
    && (m.sideEffect != "" ==> x.sideEffect == m.sideEffect)
    && (m.unknownRisk.Some? ==> (x.sideEffect == UNKNOWN) == m.unknownRisk.value)
    && (m.amountGt.Some? ==> x.amount.Some? && x.amount.value > m.amountGt.value)
    && (m.approvalMissing.Some? ==> !x.approved == m.approvalMissing.value)
    && (m.destinationType != "" ==> x.destinationType == m.destinationType)
    && (m.channel != "" ==> x.channel == m.channel)
    && (|m.channelNotIn| > 0 ==> !StringInSet(x.channel, m.channelNotIn))
    && (m.domain != "" ==> x.domain == m.domain)
    && (|m.domainNotIn| > 0 ==> !StringInSet(x.domain, m.domainNotIn))
    && (m.newAction.Some? ==> (ActionKey(x) !in keys) == m.newAction.value)
  }

  function Matching(keys: set<string>, xs: seq<Interaction>, m: Match): seq<Interaction> {
    Filter(xs, x => Meets(keys, x, m))
  }

  method MatchingInteractions(keys: set<string>, xs: seq<Interaction>, m: Match) returns (matches: seq<Interaction>)
    ensures matches == Matching(keys, xs, m)
  {
    matches := [];
    for n := 0 to |xs|
      invariant matches == Matching(keys, xs[..n], m)
    {
      assert xs[..n + 1][..n] == xs[..n];
      if Meets(keys, xs[n], m) {
        matches := matches + [xs[n]];
      }
    }
    assert xs[..|xs|] == xs;
  }

  // -------------------------------------------------------------- evaluation

  predicate WithinCount(count: int, want: Count) {
    && (want.equals.Some? ==> count == want.equals.value)
    && (want.min.Some? ==> count >= want.min.value)
    && (want.max.Some? ==> count <= want.max.value)
  }

  /** The first later interaction among ys, if any. */
  function FirstLater(x: Interaction, ys: seq<Interaction>): Option<Interaction> {
    if ys == [] then None else if x.sequence < ys[0].sequence then Some(ys[0]) else FirstLater(x, ys[1..])
  }

  function FirstPair(xs: seq<Interaction>, ys: seq<Interaction>): Option<(Interaction, Interaction)> {
    if xs == [] then None
    else
      match FirstLater(xs[0], ys)
      case Some(y) => Some((xs[0], y))
      case None => FirstPair(xs[1..], ys)
  }

  lemma {:induction false} FirstLaterIs(x: Interaction, ys: seq<Interaction>)
    ensures FirstLater(x, ys).None? <==> forall y | y in ys :: y.sequence <= x.sequence
    ensures FirstLater(x, ys).Some? ==> FirstLater(x, ys).value in ys && x.sequence < FirstLater(x, ys).value.sequence
  {
    if ys != [] {
      FirstLaterIs(x, ys[1..]);
      assert ys == [ys[0]] + ys[1..];
    }
  }

  /** A pair is found exactly when some x comes before some y. */
  lemma {:induction false} FirstPairIs(xs: seq<Interaction>, ys: seq<Interaction>)
    ensures FirstPair(xs, ys).Some? <==> exists x, y :: x in xs && y in ys && x.sequence < y.sequence
    ensures FirstPair(xs, ys).Some? ==>
              var (x, y) := FirstPair(xs, ys).value;
              x in xs && y in ys && x.sequence < y.sequence
  {
    if xs != [] {
      FirstLaterIs(xs[0], ys);
      FirstPairIs(xs[1..], ys);
      assert xs == [xs[0]] + xs[1..];
    }
  }

  function CountOutcome(keys: set<string>, run: seq<Interaction>, a: Assertion): Outcome {
    var matches := Matching(keys, run, a.selector);
    Outcome(a.id, if WithinCount(|matches|, a.count) then Passed else Failed, Evidence(matches, None, |matches|))
  }

  function OrderOutcome(keys: set<string>, run: seq<Interaction>, id: string, before: Match, after: Match): Outcome {
    var xs, ys := Matching(keys, run, before), Matching(keys, run, after);
    var pair := FirstPair(xs, ys);
    if pair.None? then Outcome(id, Failed, Evidence(xs + ys, None, |xs| + |ys|))
    else Outcome(id, Passed, Evidence([], pair, |xs| + |ys|))
  }

  /** What a valid assertion yields. */
  function OutcomeOf(keys: set<string>, run: seq<Interaction>, a: Assertion): Outcome {
    match a.kind
    case Counting => CountOutcome(keys, run, a)
    case Ordering =>
      if a.before.Some? && a.after.Some? then OrderOutcome(keys, run, a.id, a.before.value, a.after.value)
      else Outcome(a.id, Failed, Evidence([], None, 0))
    case Other(_) => Outcome(a.id, Unsupported, Evidence([], None, 0))
  }

  method EvaluateCount(keys: set<string>, run: seq<Interaction>, a: Assertion) returns (r: Outcome)
    ensures r == CountOutcome(keys, run, a)
  {
    var matches := MatchingInteractions(keys, run, a.selector);
    var count, passed := |matches|, true;
    if a.count.equals.Some? {
      passed := count == a.count.equals.value;
    }
    if a.count.min.Some? {
      passed := passed && count >= a.count.min.value;
    }
    if a.count.max.Some? {
      passed := passed && count <= a.count.max.value;
    }
    r := Outcome(a.id, if passed then Passed else Failed, Evidence(matches, None, count));
  }

  method FindPair(xs: seq<Interaction>, ys: seq<Interaction>) returns (pair: Option<(Interaction, Interaction)>)
    ensures pair == FirstPair(xs, ys)
  {
    for i := 0 to |xs|
      invariant FirstPair(xs, ys) == FirstPair(xs[i..], ys)
    {
      assert xs[i..][1..] == xs[i + 1..];
      for j := 0 to |ys|
        invariant FirstLater(xs[i], ys) == FirstLater(xs[i], ys[j..])
      {
        assert ys[j..][1..] == ys[j + 1..];
        if xs[i].sequence < ys[j].sequence {
          return Some((xs[i], ys[j]));
        }
      }
    }
    pair := None;
  }

  method EvaluateOrdering(
    keys: set<string>, run: seq<Interaction>, id: string, before: Match, after: Match) returns (r: Outcome)
    ensures r == OrderOutcome(keys, run, id, before, after)
  {
    var xs := MatchingInteractions(keys, run, before);
    var ys := MatchingInteractions(keys, run, after);
    var pair := FindPair(xs, ys);
    if pair.None? {
      r := Outcome(id, Failed, Evidence(xs + ys, None, |xs| + |ys|));
    } else {
      r := Outcome(id, Passed, Evidence([], pair, |xs| + |ys|));
    }
  }

  // -------------------------------------------------------------- validation

  predicate HasMatch(m: Match) {
    || !Blank(m.service) || !Blank(m.operation) || !Blank(m.tool) || !Blank(m.interactionId)
    || !Blank(m.eventType) || !Blank(m.tier) || !Blank(m.sideEffect) || !Blank(m.destinationType)
    || m.amountGt.Some? || m.approvalMissing.Some? || !Blank(m.channel) || |m.channelNotIn| > 0
    || !Blank(m.domain) || |m.domainNotIn| > 0 || m.newAction.Some? || m.unknownRisk.Some?
  }

  predicate ValidMatch(m: Match) {
    && HasMatch(m)
    && (!Blank(m.tool) ==> Blank(m.service) && Blank(m.operation))
    && (m.amountGt.Some? ==> m.amountGt.value >= 0.0)
    && ValidSet(m.channelNotIn) && ValidSet(m.domainNotIn)
  }

  predicate ValidCount(c: Count) {
    && (c.equals.Some? || c.min.Some? || c.max.Some?)
    && (c.equals.Some? ==> c.min.None? && c.max.None? && c.equals.value >= 0)
    && (c.min.Some? ==> c.min.value >= 0)
    && (c.max.Some? ==> c.max.value >= 0)
    && (c.min.Some? && c.max.Some? ==> c.min.value <= c.max.value)
  }

  /** Of the six assertion types the model has the two that gates compile to; Other is an unknown type. */
  predicate ValidAssertion(a: Assertion) {
    match a.kind
    case Counting => ValidMatch(a.selector) && ValidCount(a.count) && a.before.None? && a.after.None?
    case Ordering =>
      && a.before.Some? && ValidMatch(a.before.value) && a.after.Some? && ValidMatch(a.after.value)
      && !HasMatch(a.selector) && a.count == Count(None, None, None)
    case Other(_) => false
  }

  ghost predicate ValidFile(f: File) {
    && f.version == VERSION
    && f.assertions != []
    && (forall i | 0 <= i < |f.assertions| :: !Blank(f.assertions[i].id) && ValidAssertion(f.assertions[i]))
    && (forall i, j | 0 <= i < j < |f.assertions| :: f.assertions[i].id != f.assertions[j].id)
  }

  method ValidateMatch(prefix: string, m: Match, before: seq<string>) returns (problems: seq<string>)
    ensures before <= problems
    ensures problems == before <==> ValidMatch(m)
  {
    problems := before;
    if !HasMatch(m) {
      problems := problems + [prefix + " must set at least one selector field"];
    }
    if !Blank(m.tool) && (!Blank(m.service) || !Blank(m.operation)) {
      problems := problems + [prefix + ".tool cannot be combined with service or operation"];
    }
    if m.amountGt.Some? && m.amountGt.value < 0.0 {
      problems := problems + [prefix + ".amount_gt must be greater than or equal to 0"];
    }
    problems := ValidateStringSet(prefix + ".channel_not_in", m.channelNotIn, problems);
    problems := ValidateStringSet(prefix + ".domain_not_in", m.domainNotIn, problems);
  }

  method ValidateNonNegative(path: string, value: Option<int>, before: seq<string>) returns (problems: seq<string>)
    ensures before <= problems
    ensures problems == before <==> (value.Some? ==> value.value >= 0)
  {
    problems := before;
    if value.Some? && value.value < 0 {
      problems := problems + [path + " must be greater than or equal to 0"];
    }
  }

  method ValidateCount(prefix: string, c: Count, before: seq<string>) returns (problems: seq<string>)
    ensures before <= problems
    ensures problems == before <==> ValidCount(c)
  {
    problems := before;
    var hasEquals, hasRange := c.equals.Some?, c.min.Some? || c.max.Some?;
    if !hasEquals && !hasRange {
      problems := problems + [prefix + ".expect.count must set equals, min, or max"];
    }
    if hasEquals && hasRange {
      problems := problems + [prefix + ".expect.count cannot combine equals with min or max"];
    }
    problems := ValidateNonNegative(prefix + ".expect.count.equals", c.equals, problems);
    problems := ValidateNonNegative(prefix + ".expect.count.min", c.min, problems);
    problems := ValidateNonNegative(prefix + ".expect.count.max", c.max, problems);
    if c.min.Some? && c.max.Some? && c.min.value > c.max.value {
      problems := problems + [prefix + ".expect.count.min cannot be greater than max"];
    }
  }

  method ValidateCounting(prefix: string, a: Assertion, before: seq<string>) returns (problems: seq<string>)
    requires a.kind == Counting
    ensures before <= problems
    ensures problems == before <==> ValidAssertion(a)
  {
    problems := ValidateMatch(prefix + ".match", a.selector, before);
    problems := ValidateCount(prefix, a.count, problems);
    if a.before.Some? || a.after.Some? {
      problems := problems + [prefix + ".before and .after are only valid for ordering assertions"];
    }
  }

  method ValidateSide(prefix: string, m: Option<Match>, before: seq<string>) returns (problems: seq<string>)
    ensures before <= problems
    ensures problems == before <==> m.Some? && ValidMatch(m.value)
  {
    if m.None? {
      problems := before + [prefix + " is required for ordering assertions"];
    } else {
      problems := ValidateMatch(prefix, m.value, before);
    }
  }

  method ValidateOrdering(prefix: string, a: Assertion, before: seq<string>) returns (problems: seq<string>)
    requires a.kind == Ordering
    ensures before <= problems
    ensures problems == before <==> ValidAssertion(a)
  {
    problems := ValidateSide(prefix + ".before", a.before, before);
    problems := ValidateSide(prefix + ".after", a.after, problems);
    if HasMatch(a.selector) {
      problems := problems + [prefix + ".match is not allowed for ordering assertions; use before and after"];
    }
    if a.count != Count(None, None, None) {
      problems := problems + [prefix + ".expect is not allowed for this assertion type"];
    }
  }

  ghost predicate ValidPrefix(xs: seq<Assertion>, n: nat)
    requires n <= |xs|
  {
    && (forall i | 0 <= i < n :: !Blank(xs[i].id) && ValidAssertion(xs[i]))
    && (forall i, j | 0 <= i < j < n :: xs[i].id != xs[j].id)
  }

  /** Every rule of the file format is checked and every violation reported: no problem is found
      exactly when the file is valid. */
  method ValidateFile(f: File) returns (problems: seq<string>)
    ensures problems == [] <==> ValidFile(f)
  {
    problems := [];
    if f.version != VERSION {
      problems := problems + ["schema_version must be " + VERSION];
    }
    if f.assertions == [] {
      problems := problems + ["assertions must contain at least one assertion"];
    }
    var headed := problems == [];
    var seen: set<string> := {};
    for n := 0 to |f.assertions|
      invariant forall s :: s in seen <==> exists i :: 0 <= i < n && f.assertions[i].id == s
      invariant problems == [] <==> headed && ValidPrefix(f.assertions, n)
    {
      var a, prefix := f.assertions[n], "assertions[" + Dec(n) + "]";
      if Blank(a.id) {
        problems := problems + [prefix + ".id is required"];
      } else if a.id in seen {
        problems := problems + [prefix + ".id is duplicated"];
      }
      seen := seen + {a.id};
      match a.kind
      case Counting => problems := ValidateCounting(prefix, a, problems);
      case Ordering => problems := ValidateOrdering(prefix, a, problems);
      case Other(_) => problems := problems + [prefix + ".type is unknown"];
    }
  }

  /** A file with any problem is refused as a whole; otherwise there is one outcome for each
      assertion, in order. */
  method EvaluateWithOptions(run: seq<Interaction>, f: File, base: Option<seq<Interaction>>)
    returns (r: Result<seq<Outcome>, seq<string>>)
    ensures r.Ok? <==> ValidFile(f)
    ensures r.Ok? ==> |r.value| == |f.assertions| &&
                      forall i | 0 <= i < |r.value| :: r.value[i] == OutcomeOf(BaseKeys(base), run, f.assertions[i])
  {
    var problems := ValidateFile(f);
    if problems != [] {
      return Err(problems);
    }
    var outcomes := EvaluateAll(BaseKeys(base), run, f.assertions);
    r := Ok(outcomes);
  }

  method EvaluateAll(
    keys: set<string>, run: seq<Interaction>, assertions: seq<Assertion>) returns (outcomes: seq<Outcome>)
    requires forall i | 0 <= i < |assertions| :: ValidAssertion(assertions[i])
    ensures |outcomes| == |assertions|
    ensures forall i | 0 <= i < |outcomes| :: outcomes[i] == OutcomeOf(keys, run, assertions[i])
  {
    outcomes := [];
    for n := 0 to |assertions|
      invariant |outcomes| == n
      invariant forall i | 0 <= i < n :: outcomes[i] == OutcomeOf(keys, run, assertions[i])
    {
      var outcome := EvaluateAssertion(keys, run, assertions[n]);
      outcomes := outcomes + [outcome];
    }
  }

  method EvaluateAssertion(keys: set<string>, run: seq<Interaction>, a: Assertion) returns (r: Outcome)
    requires ValidAssertion(a)
    ensures r == OutcomeOf(keys, run, a)
  {
    if a.kind == Counting {
      r := EvaluateCount(keys, run, a);
    } else {
      r := EvaluateOrdering(keys, run, a.id, a.before.value, a.after.value);
    }
  }
}
