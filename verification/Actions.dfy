/** The actions of a run: how an interaction names its action, and what a run shows about one
    action (its highest risk, its fallback tiers, its greatest amount, its models and prompts).
    Classification, amounts, models, prompts and approval evidence are observed in the request and
    come with the interaction. */
module Actions {
  import opened Results
  import opened Sorting
  import opened Text

  datatype Digest = Digest(path: string, hash: string)

  datatype Interaction = Interaction(
    id: string, sequence: int, toolProtocol: bool, service: string, operation: string, bodyName: string,
    tier: string, effect: string, amount: Option<real>, models: set<string>, prompts: seq<Digest>,
    approved: bool, evidencePaths: set<string>)

  datatype Selector = Selector(service: string, operation: string, tool: string)

  /** The side effect a run is judged by: the classifier's, or one that configuration overrides. */
  type Classifier = Interaction -> string

  // ------------------------------------------------------------ action names

  /** A tool is named by its operation or else by its request; anything else by service and
      operation.  Interactions without a name are skipped. */
  function SelectorOf(x: Interaction): Option<Selector> {
    if x.toolProtocol || x.service == "stagehand.tool" then
      var tool := if !Blank(x.operation) then TrimSpace(x.operation) else TrimSpace(x.bodyName);
      if tool == "" then None else Some(Selector("", "", tool))
    else if Blank(x.service) || Blank(x.operation) then None
    else Some(Selector(TrimSpace(x.service), TrimSpace(x.operation), ""))
  }

  function Key(s: Selector): string {
    if !Blank(s.tool) then "tool:" + TrimSpace(s.tool)
    else "service:" + TrimSpace(s.service) + "\noperation:" + TrimSpace(s.operation)
  }

  function KeyOf(x: Interaction): Option<string> {
    match SelectorOf(x)
    case None => None
    case Some(s) => Some(Key(s))
  }

  /** The interactions of one action, in run order. */
  function Of(xs: seq<Interaction>, key: string): seq<Interaction> {
    Filter(xs, x => KeyOf(x) == Some(key))
  }

  ghost function KeysOf(xs: seq<Interaction>): set<string> {
    set x | x in xs && KeyOf(x).Some? :: KeyOf(x).value
  }

  lemma OfIs(xs: seq<Interaction>, key: string)
    ensures forall x :: x in Of(xs, key) <==> x in xs && KeyOf(x) == Some(key)
    ensures Of(xs, key) != [] <==> key in KeysOf(xs)
  {
    FilterIs(xs, x => KeyOf(x) == Some(key));
    if Of(xs, key) != [] {
      assert Of(xs, key)[0] in Of(xs, key);
    }
    if key in KeysOf(xs) {
      var x :| x in xs && KeyOf(x) == Some(key);
      assert x in Of(xs, key);
    }
  }

  lemma OfSnoc(xs: seq<Interaction>, x: Interaction, key: string)
    ensures Of(xs + [x], key) == Of(xs, key) + if KeyOf(x) == Some(key) then [x] else []
  {
    FilterSnoc(xs, x, y => KeyOf(y) == Some(key));
  }

  // ------------------------------------------------------------------- risk

  function Rank(effect: string): nat {
    match effect
    case "read" => 1
    case "write" => 2
    case "external_message" => 3
    case "financial" => 4
    case "destructive" => 5
    case "unknown" => 6
    case _ => 0
  }

  function HigherRisk(current: string, candidate: string): string {
    if Rank(candidate) > Rank(current) then candidate else current
  }

  function TopEffect(ys: seq<Interaction>, classify: Classifier): string {
    if ys == [] then "" else HigherRisk(TopEffect(ys[..|ys| - 1], classify), classify(ys[|ys| - 1]))
  }

  lemma RankInjective(a: string, b: string)
    requires Rank(a) == Rank(b) && Rank(a) > 0
    ensures a == b
  {
  }

  /** The highest risk is reached and never exceeded. */
  lemma {:induction false} TopEffectIs(ys: seq<Interaction>, classify: Classifier)
    ensures
      var top := TopEffect(ys, classify);
      && (forall y | y in ys :: Rank(classify(y)) <= Rank(top))
      && (top == "" || (Rank(top) > 0 && exists y :: y in ys && classify(y) == top))
  {
    if ys != [] {
      var front, last := ys[..|ys| - 1], ys[|ys| - 1];
      TopEffectIs(front, classify);
      assert ys == front + [last];
      assert last in ys;
    }
  }

  /** It does not depend on the order of the interactions. */
  lemma TopEffectPermutes(ys: seq<Interaction>, zs: seq<Interaction>, classify: Classifier)
    requires forall y :: y in ys <==> y in zs
    ensures TopEffect(ys, classify) == TopEffect(zs, classify)
  {
    TopEffectIs(ys, classify);
    TopEffectIs(zs, classify);
    var a, b := TopEffect(ys, classify), TopEffect(zs, classify);
    assert Rank(a) == Rank(b);
    if a != "" {
      RankInjective(a, b);
    }
  }

  // ------------------------------------------------------------------ tiers

  const TIERS := ["exact", "nearest_neighbor", "state_synthesis", "llm_synthesis"]

  function TierIndex(tier: string): nat {
    if tier == TIERS[0] then 0 else if tier == TIERS[1] then 1
    else if tier == TIERS[2] then 2 else if tier == TIERS[3] then 3
    else 4
  }

  predicate TierLe(a: string, b: string) {
    TierIndex(a) <= TierIndex(b)
  }

  ghost predicate Uses(ys: seq<Interaction>, tier: string) {
    exists y :: y in ys && y.tier == tier
  }

  /** The tiers used, in canonical order. */
  ghost function TiersOf(ys: seq<Interaction>): seq<string> {
    Filter(TIERS, t => Uses(ys, t))
  }

  lemma TiersAre(ys: seq<Interaction>)
    ensures
      var ts := TiersOf(ys);
      && NoRepeats(ts) && Sorted(ts, TierLe) && NoTies(ts, TierLe)
      && forall t :: t in ts <==> t in TIERS && Uses(ys, t)
  {
    assert NoRepeats(TIERS) && Sorted(TIERS, TierLe);
    FilterIs(TIERS, t => Uses(ys, t));
    FilterSorted(TIERS, t => Uses(ys, t), TierLe);
    TiersTie(TiersOf(ys));
  }

  lemma TiersTie(ts: seq<string>)
    requires forall t | t in ts :: t in TIERS
    ensures NoTies(ts, TierLe)
  {
    forall i, j | 0 <= i < |ts| && 0 <= j < |ts| && TierLe(ts[i], ts[j]) && TierLe(ts[j], ts[i])
      ensures ts[i] == ts[j]
    {
      assert ts[i] in TIERS && ts[j] in TIERS;
    }
  }

  lemma TierLePreorder()
    ensures Preorder(TierLe)
  {
  }

  lemma UsesSnoc(ys: seq<Interaction>, y: Interaction, t: string)
    ensures Uses(ys + [y], t) <==> Uses(ys, t) || t == y.tier
  {
    assert y in ys + [y];
    if z :| z in ys && z.tier == t {
      assert z in ys + [y];
    }
  }

  /** A repetition-free list with the right members sorts to the tiers in canonical order. */
  lemma TiersSort(ts: seq<string>, ys: seq<Interaction>)
    requires NoRepeats(ts) && forall t :: t in ts <==> t in TIERS && Uses(ys, t)
    ensures Sort(ts, TierLe) == TiersOf(ys)
  {
    TiersAre(ys);
    TierLePreorder();
    SameMembers(ts, TiersOf(ys));
    SortKeeps(ts, TierLe);
    SortSorted(ts, TierLe);
    SortedUnique(TiersOf(ys), Sort(ts, TierLe), TierLe);
  }

  /** Appending a tier that is not there yet and sorting again gives the tiers used so far. */
  lemma TiersSnoc(ys: seq<Interaction>, y: Interaction)
    ensures
      var more := if y.tier in TIERS && y.tier !in TiersOf(ys) then TiersOf(ys) + [y.tier] else TiersOf(ys);
      Sort(more, TierLe) == TiersOf(ys + [y])
  {
    TiersAre(ys);
    var more := if y.tier in TIERS && y.tier !in TiersOf(ys) then TiersOf(ys) + [y.tier] else TiersOf(ys);
    forall t
      ensures t in more <==> t in TIERS && Uses(ys + [y], t)
    {
      UsesSnoc(ys, y, t);
    }
    TiersSort(more, ys + [y]);
  }

  lemma TiersPermute(ys: seq<Interaction>, zs: seq<Interaction>)
    requires forall y :: y in ys <==> y in zs
    ensures TiersOf(ys) == TiersOf(zs)
  {
    assert forall t :: Uses(ys, t) == Uses(zs, t);
    FilterSame(TIERS, t => Uses(ys, t), t => Uses(zs, t));
  }

  // ----------------------------------------------------------------- amounts

  function MaxAmount(ys: seq<Interaction>): Option<real> {
    if ys == [] then None
    else
      var before, last := MaxAmount(ys[..|ys| - 1]), ys[|ys| - 1].amount;
      if last.Some? && (before.None? || last.value > before.value) then last else before
  }

  /** The greatest amount is observed and never exceeded. */
  lemma {:induction false} MaxAmountIs(ys: seq<Interaction>)
    ensures
      match MaxAmount(ys)
      case None => forall y | y in ys :: y.amount.None?
      case Some(top) =>
        && (exists y :: y in ys && y.amount == Some(top))
        && (forall y | y in ys && y.amount.Some? :: y.amount.value <= top)
  {
    if ys != [] {
      var front, last := ys[..|ys| - 1], ys[|ys| - 1];
      MaxAmountIs(front);
      assert ys == front + [last];
      assert last in ys;
    }
  }

  // ------------------------------------------------------- models and prompts

  function ModelsOf(ys: seq<Interaction>): set<string> {
    set y, m | y in ys && m in y.models && !Blank(m) :: TrimSpace(m)
  }

  function PromptsOf(ys: seq<Interaction>): set<Digest> {
    set y, d | y in ys && d in y.prompts :: d
  }
}
