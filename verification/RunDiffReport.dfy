/** What the run diff reports, said over the two runs: which changes, for which occurrences, in which
    order, and which of them fail the comparison. */
module RunDiffReport {
  import opened IgnorePaths
  import opened Json
  import opened Results
  import opened RunDiff
  import opened RunDiffLaws
  import opened Sorting
  import opened Text

  /** No tier and "exact" come first, then the three substitutes, then any unknown tier. */
  predicate Regressed(was: string, now: string) {
    || ((was == "" || was == "exact") && now != "" && now != "exact")
    || (was == "nearest_neighbor" && now !in {"", "exact", "nearest_neighbor"})
    || (was == "state_synthesis" && now !in {"", "exact", "nearest_neighbor", "state_synthesis"})
    || (was == "llm_synthesis" && now !in {"", "exact", "nearest_neighbor", "state_synthesis", "llm_synthesis"})
  }

  lemma RegressedIsRank(was: string, now: string)
    ensures Regressed(was, now) <==> Rank(now) > Rank(was)
  {
  }

  /** What is compared of an interaction x when the base interaction is b. */
  ghost function Shown(rules: Rules, b: Interaction, x: Interaction): Json {
    var ignored := rules.global + if b.service in rules.services then rules.services[b.service] else {};
    RemoveAll(rules.query(x.document, ignored), Members(ignored))
  }

  /** The report on an occurrence that only one side has, or both: what it says, and whether it fails. */
  ghost predicate Says(rules: Rules, base: Option<Interaction>, candidate: Option<Interaction>, c: Change) {
    && c.base == base && c.candidate == candidate
    && match c.kind
       case Added => base.None? && candidate.Some? && c.failing
       case Removed => base.Some? && candidate.None? && c.failing
       case OrderingChanged =>
         base.Some? && candidate.Some? && base.value.sequence != candidate.value.sequence && !c.failing
       case FallbackRegression =>
         base.Some? && candidate.Some? && Regressed(base.value.tier, candidate.value.tier) && c.failing
       case Modified =>
         && base.Some? && candidate.Some? && c.failing
         && Shown(rules, base.value, base.value) != Shown(rules, base.value, candidate.value)
  }

  lemma ShownIsCanonical(rules: Rules, b: Interaction, x: Interaction)
    ensures Shown(rules, b, x) == Canonical(rules, x, Ignored(rules, b))
  {
    assert rules.global + {} == rules.global;
  }

  lemma PairSays(rules: Rules, p: Pair, c: Change)
    ensures c in Changes(rules, p) <==> Says(rules, p.base, p.candidate, c)
  {
    if p.base.Some? && p.candidate.Some? {
      RegressedIsRank(p.base.value.tier, p.candidate.value.tier);
      ShownIsCanonical(rules, p.base.value, p.base.value);
      ShownIsCanonical(rules, p.base.value, p.candidate.value);
    }
  }

  lemma {:induction false} AllSay(rules: Rules, ps: seq<Pair>, c: Change)
    ensures c in AllChanges(rules, ps) <==> exists p :: p in ps && c in Changes(rules, p)
  {
    if ps != [] {
      var front, last := ps[..|ps| - 1], ps[|ps| - 1];
      assert ps == front + [last];
      AllSay(rules, front, c);
    }
  }

  /** The n-th occurrence of identity b, if there are so many. */
  ghost function Occurrence(rules: Rules, xs: seq<Interaction>, b: string, n: nat): Option<Interaction> {
    var all := All(rules, Ordered(xs), b);
    if 1 <= n <= |all| then Some(all[n - 1]) else None
  }

  /** Runs of one named session can be compared.  A change is then reported exactly if it says of some
      numbered occurrence, as the two runs have it, what is the case. */
  lemma ReportedIff(rules: Rules, base: Run, candidate: Run, c: Change)
    ensures Comparison(rules, base, candidate).Ok? <==>
            base.session == candidate.session && !Blank(base.session)
    ensures Comparison(rules, base, candidate) == Err(NoSession) <==> Blank(base.session) || Blank(candidate.session)
    ensures Comparison(rules, base, candidate).Ok? ==>
              (c in Comparison(rules, base, candidate).value <==>
               exists b, n: nat ::
                 Says(rules, Occurrence(rules, base.interactions, b, n),
                      Occurrence(rules, candidate.interactions, b, n), c))
  {
    if Comparison(rules, base, candidate).Ok? {
      var ps := Aligned(rules, base.interactions, candidate.interactions);
      AllSay(rules, ps, c);
      OccurrencesMeet(rules, base.interactions, candidate.interactions);
      if c in AllChanges(rules, ps) {
        var p :| p in ps && c in Changes(rules, p);
        SaidOf(rules, base, candidate, p, c);
      }
      if b, n: nat :| Says(rules, Occurrence(rules, base.interactions, b, n),
                           Occurrence(rules, candidate.interactions, b, n), c) {
        var p := NthPair(rules, Ordered(base.interactions), Ordered(candidate.interactions), b, n);
        PairSays(rules, p, c);
        assert p in ps;
      }
    }
  }

  lemma SaidOf(rules: Rules, base: Run, candidate: Run, p: Pair, c: Change)
    requires p in Aligned(rules, base.interactions, candidate.interactions) && c in Changes(rules, p)
    ensures exists b, n: nat ::
              Says(rules, Occurrence(rules, base.interactions, b, n), Occurrence(rules, candidate.interactions, b, n), c)
  {
    PairSays(rules, p, c);
    var b, n := NumberOf(rules, base, candidate, p);
    assert Says(rules, Occurrence(rules, base.interactions, b, n), Occurrence(rules, candidate.interactions, b, n), c);
  }

  lemma NumberOf(rules: Rules, base: Run, candidate: Run, p: Pair) returns (b: string, n: nat)
    requires p in Aligned(rules, base.interactions, candidate.interactions)
    ensures p.base == Occurrence(rules, base.interactions, b, n)
    ensures p.candidate == Occurrence(rules, candidate.interactions, b, n)
  {
    OccurrencesMeet(rules, base.interactions, candidate.interactions);
    b, n :| p == NthPair(rules, Ordered(base.interactions), Ordered(candidate.interactions), b, n);
  }

  /** Where a pair stands: at its base interaction, or else at its candidate. */
  function Place(p: Pair): int {
    if p.base.Some? then p.base.value.sequence else if p.candidate.Some? then p.candidate.value.sequence else 0
  }

  /** The report goes through the pairs by place and then by key. */
  lemma PairsInOrder(rules: Rules, base: seq<Interaction>, candidate: seq<Interaction>)
    ensures
      var ps := Aligned(rules, base, candidate);
      forall i, j | 0 <= i < j < |ps| ::
        Place(ps[i]) < Place(ps[j]) || (Place(ps[i]) == Place(ps[j]) && StrLe(ps[i].key, ps[j].key))
  {
    OccurrencesMeet(rules, base, candidate);
  }

  /** The order of the changes of one pair. */
  function Turn(k: Kind): nat {
    match k
    case Added => 0
    case Removed => 1
    case OrderingChanged => 2
    case FallbackRegression => 3
    case Modified => 4
  }

  /** The pair number `at[k]` is what the k-th change is about; the changes follow the pairs, and those of
      one pair come each at most once, the order of the interactions before the tier before the content. */
  ghost predicate InTurn(rules: Rules, ps: seq<Pair>, cs: seq<Change>, at: seq<nat>) {
    && |at| == |cs|
    && (forall k | 0 <= k < |cs| :: at[k] < |ps| && Says(rules, ps[at[k]].base, ps[at[k]].candidate, cs[k]))
    && (forall j, k | 0 <= j < k < |cs| :: at[j] < at[k] || (at[j] == at[k] && Turn(cs[j].kind) < Turn(cs[k].kind)))
  }

  lemma PairInTurn(rules: Rules, p: Pair)
    ensures
      var cs := Changes(rules, p);
      && (forall k | 0 <= k < |cs| :: Says(rules, p.base, p.candidate, cs[k]))
      && (forall j, k | 0 <= j < k < |cs| :: Turn(cs[j].kind) < Turn(cs[k].kind))
  {
    var cs := Changes(rules, p);
    forall k | 0 <= k < |cs|
      ensures Says(rules, p.base, p.candidate, cs[k])
    {
      assert cs[k] in cs;
      PairSays(rules, p, cs[k]);
    }
  }

  lemma {:induction false} ChangesInTurn(rules: Rules, ps: seq<Pair>) returns (at: seq<nat>)
    ensures InTurn(rules, ps, AllChanges(rules, ps), at)
  {
    at := [];
    if ps != [] {
      var front, last := ps[..|ps| - 1], ps[|ps| - 1];
      var before := ChangesInTurn(rules, front);
      var more := Changes(rules, last);
      PairInTurn(rules, last);
      at := before + seq(|more|, _ => |front|);
    }
  }

  /** Occurrences are numbered by sequence and then by id. */
  lemma OrderedIs(xs: seq<Interaction>)
    ensures multiset(Ordered(xs)) == multiset(xs)
    ensures forall i, j | 0 <= i < j < |Ordered(xs)| ::
              var x, y := Ordered(xs)[i], Ordered(xs)[j];
              x.sequence < y.sequence || (x.sequence == y.sequence && StrLe(x.id, y.id))
  {
    SortKeeps(xs, InteractionLe);
    InteractionLePreorder();
    SortSorted(xs, InteractionLe);
  }
}
