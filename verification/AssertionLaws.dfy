/** What assertions select and when they pass, said over the run. */
module AssertionLaws {
  import opened Assertions
  import opened Results
  import opened Sorting
  import opened StringSets
  import opened Text

  // ------------------------------------------------------------------ selectors

  /** What a selector with one field set picks. */
  lemma OneField(keys: set<string>, x: Interaction, s: string)
    ensures Meets(keys, x, ANY_MATCH.(service := s)) <==> s == "" || x.service == s
    ensures Meets(keys, x, ANY_MATCH.(operation := s)) <==> s == "" || x.operation == s
    ensures Meets(keys, x, ANY_MATCH.(interactionId := s)) <==> s == "" || x.id == s
    ensures Meets(keys, x, ANY_MATCH.(eventType := s)) <==> s == "" || exists e :: e in x.events && e == s
    ensures Meets(keys, x, ANY_MATCH.(tier := s)) <==> s == "" || x.tier == s
    ensures Meets(keys, x, ANY_MATCH.(sideEffect := s)) <==> s == "" || x.sideEffect == s
    ensures Meets(keys, x, ANY_MATCH.(destinationType := s)) <==> s == "" || x.destinationType == s
    ensures Meets(keys, x, ANY_MATCH.(channel := s)) <==> s == "" || x.channel == s
    ensures Meets(keys, x, ANY_MATCH.(domain := s)) <==> s == "" || x.domain == s
    ensures Meets(keys, x, ANY_MATCH)
  {
  }

  lemma OneFlag(keys: set<string>, x: Interaction, limit: real, wanted: bool)
    ensures Meets(keys, x, ANY_MATCH.(amountGt := Some(limit))) <==> x.amount.Some? && limit < x.amount.value
    ensures Meets(keys, x, ANY_MATCH.(approvalMissing := Some(wanted))) <==> x.approved != wanted
    ensures Meets(keys, x, ANY_MATCH.(newAction := Some(wanted))) <==> (ActionKey(x) in keys) != wanted
    ensures Meets(keys, x, ANY_MATCH.(unknownRisk := Some(wanted))) <==> (x.sideEffect == "unknown") == wanted
  {
  }

  /** The value is one of the list, spaces at the ends and the case of letters aside. */
  ghost predicate OneOf(value: string, values: seq<string>) {
    && !Blank(value)
    && exists i :: 0 <= i < |values| && ToLower(TrimSpace(values[i])) == ToLower(TrimSpace(value))
  }

  lemma OneList(keys: set<string>, x: Interaction, values: seq<string>)
    requires values != []
    ensures Meets(keys, x, ANY_MATCH.(channelNotIn := values)) <==> !OneOf(x.channel, values)
    ensures Meets(keys, x, ANY_MATCH.(domainNotIn := values)) <==> !OneOf(x.domain, values)
  {
  }

  /** A tool selector picks the calls of that tool and nothing else. */
  lemma OneTool(keys: set<string>, x: Interaction, tool: string)
    ensures Meets(keys, x, ANY_MATCH.(tool := tool)) <==>
            Blank(tool) || (x.service == "stagehand.tool" && x.operation == TrimSpace(tool))
  {
  }

  /** The fields of a selector narrow it one after the other: it picks what every field picks alone. */
  lemma FieldsNarrow(keys: set<string>, x: Interaction, m: Match)
    requires Blank(m.tool)
    ensures Meets(keys, x, m) <==>
            && Meets(keys, x, ANY_MATCH.(service := m.service)) && Meets(keys, x, ANY_MATCH.(operation := m.operation))
            && Meets(keys, x, ANY_MATCH.(interactionId := m.interactionId))
            && Meets(keys, x, ANY_MATCH.(eventType := m.eventType)) && Meets(keys, x, ANY_MATCH.(tier := m.tier))
            && Meets(keys, x, ANY_MATCH.(sideEffect := m.sideEffect, destinationType := m.destinationType))
            && Meets(keys, x, ANY_MATCH.(amountGt := m.amountGt, approvalMissing := m.approvalMissing))
            && Meets(keys, x, ANY_MATCH.(channel := m.channel, channelNotIn := m.channelNotIn))
            && Meets(keys, x, ANY_MATCH.(domain := m.domain, domainNotIn := m.domainNotIn))
            && Meets(keys, x, ANY_MATCH.(newAction := m.newAction, unknownRisk := m.unknownRisk))
  {
  }

  lemma PairsNarrow(keys: set<string>, x: Interaction, m: Match)
    ensures Meets(keys, x, ANY_MATCH.(sideEffect := m.sideEffect, destinationType := m.destinationType)) <==>
            && Meets(keys, x, ANY_MATCH.(sideEffect := m.sideEffect))
            && Meets(keys, x, ANY_MATCH.(destinationType := m.destinationType))
    ensures Meets(keys, x, ANY_MATCH.(amountGt := m.amountGt, approvalMissing := m.approvalMissing)) <==>
            && Meets(keys, x, ANY_MATCH.(amountGt := m.amountGt))
            && Meets(keys, x, ANY_MATCH.(approvalMissing := m.approvalMissing))
    ensures Meets(keys, x, ANY_MATCH.(newAction := m.newAction, unknownRisk := m.unknownRisk)) <==>
            && Meets(keys, x, ANY_MATCH.(newAction := m.newAction))
            && Meets(keys, x, ANY_MATCH.(unknownRisk := m.unknownRisk))
  {
  }

  // ------------------------------------------------------------------- outcomes

  /** The places of a run that a selector picks. */
  ghost function Picked(keys: set<string>, run: seq<Interaction>, m: Match): set<nat> {
    set i | 0 <= i < |run| && Meets(keys, run[i], m)
  }

  lemma {:induction false} PickedSize(keys: set<string>, run: seq<Interaction>, m: Match)
    ensures |Matching(keys, run, m)| == |Picked(keys, run, m)|
  {
    if run != [] {
      var n := |run| - 1;
      PickedSize(keys, run[..n], m);
      assert Picked(keys, run, m) == Picked(keys, run[..n], m) + if Meets(keys, run[n], m) then {n} else {};
    }
  }

  /** A count assertion passes exactly if the number of places it picks is the one wanted, or lies
      between the bounds; its evidence is what it picks. */
  lemma CountPassesIff(keys: set<string>, run: seq<Interaction>, a: Assertion)
    requires a.kind == Counting
    ensures
      var o, n := OutcomeOf(keys, run, a), |Picked(keys, run, a.selector)|;
      && o.id == a.id && o.status != Unsupported && o.evidence.count == n && |o.evidence.matched| == n
      && (o.status == Passed <==>
            && (a.count.equals == None || a.count.equals == Some(n))
            && (a.count.min == None || a.count.min.value <= n)
            && (a.count.max == None || n <= a.count.max.value))
      && forall x :: x in o.evidence.matched <==> x in run && Meets(keys, x, a.selector)
  {
    PickedSize(keys, run, a.selector);
    FilterIs(run, x => Meets(keys, x, a.selector));
  }

  /** An ordering assertion passes exactly if some interaction the first selector picks comes before
      one the second picks, and then such a pair is the evidence. */
  lemma OrderPassesIff(keys: set<string>, run: seq<Interaction>, a: Assertion)
    requires a.kind == Ordering && a.before.Some? && a.after.Some?
    ensures
      var o := OutcomeOf(keys, run, a);
      && o.id == a.id && o.status != Unsupported
      && (o.status == Passed <==>
            exists x, y :: x in run && y in run && x.sequence < y.sequence
                           && Meets(keys, x, a.before.value) && Meets(keys, y, a.after.value))
      && (o.status == Passed ==>
            && o.evidence.pair.Some? && o.evidence.matched == []
            && var (x, y) := o.evidence.pair.value;
               x in run && y in run && x.sequence < y.sequence
               && Meets(keys, x, a.before.value) && Meets(keys, y, a.after.value))
      && (o.status == Failed ==>
            && o.evidence.pair == None
            && forall x ::
                 x in o.evidence.matched <==>
                 x in run && (Meets(keys, x, a.before.value) || Meets(keys, x, a.after.value)))
      && o.evidence.count == |Picked(keys, run, a.before.value)| + |Picked(keys, run, a.after.value)|
  {
    var xs, ys := Matching(keys, run, a.before.value), Matching(keys, run, a.after.value);
    PickedSize(keys, run, a.before.value);
    PickedSize(keys, run, a.after.value);
    FilterIs(run, x => Meets(keys, x, a.before.value));
    FilterIs(run, x => Meets(keys, x, a.after.value));
    FirstPairIs(xs, ys);
  }

  // ----------------------------------------------------------------- validation

  /** Every count a valid file asks for is the count of some run. */
  lemma CountCanPass(c: Count) returns (n: nat)
    requires ValidCount(c)
    ensures WithinCount(n, c)
  {
    n := if c.equals.Some? then c.equals.value else if c.min.Some? then c.min.value else 0;
  }

  /** A count is refused exactly if it asks for nothing, asks both ways, has a negative number, or has
      bounds that cross. */
  lemma CountValidIff(c: Count)
    ensures !ValidCount(c) <==>
            || c == Count(None, None, None)
            || (c.equals != None && (c.min != None || c.max != None))
            || (exists n: int :: n < 0 && (c.equals == Some(n) || c.min == Some(n) || c.max == Some(n)))
            || (exists m: int, n: int :: m > n && c.min == Some(m) && c.max == Some(n))
  {
  }

  /** The fields of a selector that are texts. */
  function Texts(m: Match): seq<string> {
    [m.service, m.operation, m.tool, m.interactionId, m.eventType, m.tier, m.sideEffect, m.destinationType,
     m.channel, m.domain]
  }

  /** Nothing is selected by a selector whose texts are blank and whose other fields are not given. */
  ghost predicate Empty(m: Match) {
    && (forall i | 0 <= i < 10 :: Blank(Texts(m)[i]))
    && m.amountGt == None && m.approvalMissing == None && m.newAction == None && m.unknownRisk == None
    && m.channelNotIn == [] && m.domainNotIn == []
  }

  lemma HasMatchIff(m: Match)
    ensures HasMatch(m) <==> !Empty(m)
  {
    var t := Texts(m);
    assert Empty(m) ==> Blank(t[0]) && Blank(t[1]) && Blank(t[2]) && Blank(t[3]) && Blank(t[4]);
    assert Empty(m) ==> Blank(t[5]) && Blank(t[6]) && Blank(t[7]) && Blank(t[8]) && Blank(t[9]);
  }

  /** The list has a blank value, or the same value twice once trimmed. */
  ghost predicate Unfit(values: seq<string>) {
    || (exists i :: 0 <= i < |values| && Blank(values[i]))
    || (exists i, j :: 0 <= i < j < |values| && TrimSpace(values[i]) == TrimSpace(values[j]))
  }

  /** A selector is refused exactly if it is empty, names a tool beside a service or an operation, asks
      for a negative amount, or excludes an unfit list. */
  lemma MatchRefusedIff(m: Match)
    ensures !ValidMatch(m) <==>
            || Empty(m) || (!Blank(m.tool) && !(Blank(m.service) && Blank(m.operation)))
            || (m.amountGt.Some? && m.amountGt.value < 0.0) || Unfit(m.channelNotIn) || Unfit(m.domainNotIn)
  {
    HasMatchIff(m);
  }

  /** A file is refused exactly if it has another version, no assertions, a blank id, an id twice, or a
      bad assertion: of an unknown type, with a bad selector or count, or with what its type does not have. */
  lemma FileRefusedIff(f: File)
    ensures !ValidFile(f) <==>
            || f.version != "v1alpha1" || |f.assertions| == 0
            || (exists i :: 0 <= i < |f.assertions| && (Blank(f.assertions[i].id) || Bad(f.assertions[i])))
            || (exists i, j :: 0 <= i < j < |f.assertions| && f.assertions[i].id == f.assertions[j].id)
  {
    forall i | 0 <= i < |f.assertions|
      ensures Bad(f.assertions[i]) <==> !ValidAssertion(f.assertions[i])
    {
      HasMatchIff(f.assertions[i].selector);
    }
  }

  ghost predicate Bad(a: Assertion) {
    match a.kind
    case Counting => !ValidMatch(a.selector) || !ValidCount(a.count) || a.before.Some? || a.after.Some?
    case Ordering =>
      || !(a.before.Some? && ValidMatch(a.before.value)) || !(a.after.Some? && ValidMatch(a.after.value))
      || !Empty(a.selector) || a.count.equals.Some? || a.count.min.Some? || a.count.max.Some?
    case Other(_) => true
  }
}
