/** The runtime fallback matcher: compatible recordings in order, an exact match if there is one,
    else the nearest.  Scores are reals.  The views of a URL, body and headers that the scores compare
    are given; the query parts are a function of the normalised URL and the values of the body. */
module Fallback {
  import opened Json
  import opened Results
  import opened Sorting
  import opened Text

  datatype Interaction = Interaction(
    id: string, sequence: int, service: string, operation: string, protocol: string, verb: string,
    path: string, url: string, body: Json, headers: seq<string>)

  datatype Views = Views(query: string -> seq<string>, values: Json -> seq<string>)

  datatype Tier = Exact | NearestNeighbor | StateSynthesis

  datatype Outcome =
    | Matched(item: Interaction, score: real)
    | Nearest(item: Interaction, score: real)
    | Synthesize(candidates: seq<Interaction>)
    | NoMatch

  const MINIMUM_SCORE := 0.35

  // ------------------------------------------------------------- candidates

  predicate Compatible(x: Interaction, r: Interaction) {
    && x.service == r.service && x.operation == r.operation && x.protocol == r.protocol
    && ToLower(x.verb) == ToLower(r.verb) && x.path == r.path
  }

  predicate InteractionLe(a: Interaction, b: Interaction) {
    a.sequence < b.sequence || (a.sequence == b.sequence && StrLe(a.id, b.id))
  }

  function Candidates(recorded: seq<Interaction>, r: Interaction): seq<Interaction> {
    Sort(Filter(recorded, x => Compatible(x, r)), InteractionLe)
  }

  /** Of compatible interactions those with the same normalised URL and the same body have the same
      request key. */
  predicate SameKey(x: Interaction, r: Interaction) {
    x.url == r.url && x.body == r.body
  }

  function FirstExact(cs: seq<Interaction>, r: Interaction): Option<Interaction> {
    if cs == [] then None else if SameKey(cs[0], r) then Some(cs[0]) else FirstExact(cs[1..], r)
  }

  // ----------------------------------------------------------------- scores

  function SetOf(parts: seq<string>): set<string> {
    set p | p in parts
  }

  /** The share of common elements. */
  function Similarity(a: set<string>, b: set<string>): real {
    if a == {} && b == {} then 1.0
    else if a == {} || b == {} then 0.0
    else
      UnionSize(a, b);
      |a * b| as real / |a + b| as real
  }

  lemma UnionSize(a: set<string>, b: set<string>)
    ensures a != {} ==> |a + b| > 0
    ensures |a * b| <= |a + b|
  {
    if a != {} {
      var x :| x in a;
      assert x in a + b;
    }
    assert a * b <= a + b;
    SubsetSize(a * b, a + b);
  }

  lemma {:induction false} SubsetSize(a: set<string>, b: set<string>)
    requires a <= b
    ensures |a| <= |b|
  {
    if a != {} {
      var x :| x in a;
      SubsetSize(a - {x}, b - {x});
    }
  }

  function Score(views: Views, x: Interaction, r: Interaction): real {
    var query := Similarity(SetOf(views.query(x.url)), SetOf(views.query(r.url)));
    var body := Similarity(SetOf(views.values(x.body)), SetOf(views.values(r.body)));
    var header := Similarity(SetOf(x.headers), SetOf(r.headers));
    var score := 0.50 * body + 0.35 * query + 0.15 * header
      + (if views.values(x.body) == [] && views.values(r.body) == [] then 0.25 else 0.0)
      + (if views.query(x.url) == [] && views.query(r.url) == [] then 0.15 else 0.0);
    if score > 1.0 then 1.0 else score
  }

  /** The first of the highest score among the first n candidates. */
  function FirstBest(score: Interaction -> real, cs: seq<Interaction>, n: nat): Option<(Interaction, real)>
    requires n <= |cs|
  {
    if n == 0 then None
    else
      var best, x := FirstBest(score, cs, n - 1), cs[n - 1];
      if best.None? || score(x) > best.value.1 then Some((x, score(x))) else best
  }

  function ScoreOf(views: Views, r: Interaction): Interaction -> real {
    x => Score(views, x, r)
  }

  /** What the matcher answers. */
  function Match(
    views: Views, allowed: set<Tier>, synthesizer: bool, recorded: seq<Interaction>, r: Interaction): Outcome
  {
    var cs := Candidates(recorded, r);
    var exact, best := FirstExact(cs, r), FirstBest(ScoreOf(views, r), cs, |cs|);
    if Exact in allowed && exact.Some? then Matched(exact.value, 1.0)
    else if NearestNeighbor in allowed && best.Some? && best.value.1 >= MINIMUM_SCORE then
      Nearest(best.value.0, best.value.1)
    else if StateSynthesis in allowed && synthesizer then Synthesize(cs)
    else NoMatch
  }

  // -------------------------------------------------------------- properties

  lemma SimilarityRange(a: set<string>, b: set<string>)
    ensures 0.0 <= Similarity(a, b) <= 1.0
  {
    if a != {} && b != {} {
      UnionSize(a, b);
      Ratio(|a * b|, |a + b|);
    }
  }

  lemma Ratio(m: nat, n: nat)
    requires m <= n && n > 0
    ensures 0.0 <= m as real / n as real <= 1.0
    ensures m == n ==> m as real / n as real == 1.0
  {
  }

  lemma SimilaritySame(a: set<string>)
    ensures Similarity(a, a) == 1.0
  {
    if a != {} {
      UnionSize(a, a);
      assert a * a == a && a + a == a;
      Ratio(|a|, |a|);
    }
  }

  /** Scores lie between 0 and 1. */
  lemma ScoreRange(views: Views, x: Interaction, r: Interaction)
    ensures 0.0 <= Score(views, x, r) <= 1.0
  {
    SimilarityRange(SetOf(views.query(x.url)), SetOf(views.query(r.url)));
    SimilarityRange(SetOf(views.values(x.body)), SetOf(views.values(r.body)));
    SimilarityRange(SetOf(x.headers), SetOf(r.headers));
  }

  /** A candidate with the same key scores at least 0.85, whatever its headers. */
  lemma SameKeyScore(views: Views, x: Interaction, r: Interaction)
    requires SameKey(x, r)
    ensures Score(views, x, r) >= 0.85
  {
    SimilaritySame(SetOf(views.query(r.url)));
    SimilaritySame(SetOf(views.values(r.body)));
    SimilarityRange(SetOf(x.headers), SetOf(r.headers));
  }

  /** Whether a smaller set of elements is shared decides: similarity is 1 only for equal sets. */
  lemma SimilarityOneIff(a: set<string>, b: set<string>)
    ensures Similarity(a, b) == 1.0 <==> a == b
  {
    SimilaritySame(a);
    if a != {} && b != {} && a != b {
      UnionSize(a, b);
      var x :| x in a + b && x !in a * b;
      SubsetSize(a * b, a + b - {x});
      Below(|a * b|, |a + b|);
    }
  }

  lemma Below(m: nat, n: nat)
    requires m < n
    ensures m as real / n as real < 1.0
  {
  }

  lemma {:induction false} FirstExactIs(cs: seq<Interaction>, r: Interaction)
    ensures
      match FirstExact(cs, r)
      case None => forall x | x in cs :: !SameKey(x, r)
      case Some(x) =>
        && x in cs && SameKey(x, r)
        && (Sorted(cs, InteractionLe) ==> forall y | y in cs && SameKey(y, r) :: y == x || InteractionLe(x, y))
  {
    if cs != [] {
      FirstExactIs(cs[1..], r);
      assert cs == [cs[0]] + cs[1..];
    }
  }

  lemma {:induction false} FirstBestIs(score: Interaction -> real, cs: seq<Interaction>, n: nat)
    requires n <= |cs|
    ensures
      match FirstBest(score, cs, n)
      case None => n == 0
      case Some((x, top)) =>
        && top == score(x) && (forall j | 0 <= j < n :: score(cs[j]) <= top)
        && exists i :: 0 <= i < n && cs[i] == x && forall j | 0 <= j < i :: score(cs[j]) < top
  {
    if n > 0 {
      FirstBestIs(score, cs, n - 1);
    }
  }

  lemma InteractionLePreorder()
    ensures Preorder(InteractionLe)
  {
    forall a: Interaction, b: Interaction
      ensures InteractionLe(a, b) || InteractionLe(b, a)
    {
      StrLeTotal(a.id, b.id);
    }
    forall a: Interaction, b: Interaction, c: Interaction | InteractionLe(a, b) && InteractionLe(b, c)
      ensures InteractionLe(a, c)
    {
      if a.sequence == c.sequence {
        StrLeTransitive(a.id, b.id, c.id);
      }
    }
  }

  lemma CandidatesAre(recorded: seq<Interaction>, r: Interaction)
    ensures Sorted(Candidates(recorded, r), InteractionLe)
    ensures forall x :: x in Candidates(recorded, r) <==> x in recorded && Compatible(x, r)
  {
    var kept := Filter(recorded, x => Compatible(x, r));
    InteractionLePreorder();
    SortSorted(kept, InteractionLe);
    SortKeeps(kept, InteractionLe);
    MultisetMembers(Candidates(recorded, r), kept);
    FilterIs(recorded, x => Compatible(x, r));
  }

  /** The answer is exact exactly if that tier is allowed and a compatible recording has the same key;
      then it is the earliest such recording. */
  lemma ExactIff(views: Views, allowed: set<Tier>, synthesizer: bool, recorded: seq<Interaction>, r: Interaction)
    ensures
      var m := Match(views, allowed, synthesizer, recorded, r);
      && (m.Matched? <==> Exact in allowed && exists x :: x in recorded && Compatible(x, r) && SameKey(x, r))
      && (m.Matched? ==>
            && m.item in recorded && Compatible(m.item, r) && SameKey(m.item, r)
            && forall y | y in recorded && Compatible(y, r) && SameKey(y, r) :: y == m.item || InteractionLe(m.item, y))
  {
    CandidatesAre(recorded, r);
    FirstExactIs(Candidates(recorded, r), r);
  }

  /** Otherwise it is the nearest exactly if that tier is allowed and some candidate scores at least
      0.35; no candidate scores more, and none before it as much. */
  lemma NearestIff(views: Views, allowed: set<Tier>, synthesizer: bool, recorded: seq<Interaction>, r: Interaction)
    ensures
      var m, cs := Match(views, allowed, synthesizer, recorded, r), Candidates(recorded, r);
      && (m.Nearest? <==>
            (!m.Matched? && NearestNeighbor in allowed
             && exists i :: 0 <= i < |cs| && ScoreOf(views, r)(cs[i]) >= 0.35))
      && (m.Nearest? ==>
            && m.score == ScoreOf(views, r)(m.item) && (forall j | 0 <= j < |cs| :: ScoreOf(views, r)(cs[j]) <= m.score)
            && exists i ::
              0 <= i < |cs| && cs[i] == m.item && forall j | 0 <= j < i :: ScoreOf(views, r)(cs[j]) < m.score)
  {
    var cs := Candidates(recorded, r);
    FirstBestIs(ScoreOf(views, r), cs, |cs|);
  }

  /** No two recordings share both sequence and id. */
  ghost predicate DistinctPlaces(xs: seq<Interaction>) {
    forall i, j | 0 <= i < j < |xs| :: xs[i].sequence != xs[j].sequence || xs[i].id != xs[j].id
  }

  /** The order of the recordings is irrelevant. */
  lemma RecordedOrderIrrelevant(views: Views, allowed: set<Tier>, synthesizer: bool,
                                recorded: seq<Interaction>, other: seq<Interaction>, r: Interaction)
    requires DistinctPlaces(recorded) && multiset(recorded) == multiset(other)
    ensures Match(views, allowed, synthesizer, recorded, r) == Match(views, allowed, synthesizer, other, r)
  {
    CandidatesPermute(recorded, other, r);
  }

  lemma CandidatesPermute(recorded: seq<Interaction>, other: seq<Interaction>, r: Interaction)
    requires DistinctPlaces(recorded) && multiset(recorded) == multiset(other)
    ensures Candidates(recorded, r) == Candidates(other, r)
  {
    var kept := Filter(recorded, x => Compatible(x, r));
    InteractionLePreorder();
    FilterPermutes(recorded, other, x => Compatible(x, r));
    FilterIs(recorded, x => Compatible(x, r));
    forall i, j | 0 <= i < |kept| && 0 <= j < |kept| && InteractionLe(kept[i], kept[j]) && InteractionLe(kept[j], kept[i])
      ensures kept[i] == kept[j]
    {
      SamePlace(recorded, kept[i], kept[j]);
    }
    SortPermutation(kept, Filter(other, x => Compatible(x, r)), InteractionLe);
  }

  lemma SamePlace(xs: seq<Interaction>, a: Interaction, b: Interaction)
    requires DistinctPlaces(xs) && a in xs && b in xs && InteractionLe(a, b) && InteractionLe(b, a)
    ensures a == b
  {
    StrLeAntisymmetric(a.id, b.id);
    var i :| 0 <= i < |xs| && xs[i] == a;
    var j :| 0 <= j < |xs| && xs[j] == b;
  }
}
