/** What the fallback matcher compares and how much each part weighs. */
module FallbackScores {
  import opened Fallback
  import opened Json
  import opened Results
  import opened Sorting
  import opened Text

  // ------------------------------------------------------------- candidates

  /** The candidates of a request are the recordings of the same service, operation, protocol, method
      and path, in order of sequence and then of id. */
  lemma CandidatesAre(recorded: seq<Interaction>, r: Interaction)
    ensures forall x :: x in Candidates(recorded, r) <==>
              && x in recorded && x.service == r.service && x.operation == r.operation && x.protocol == r.protocol
              && ToLower(x.verb) == ToLower(r.verb) && x.path == r.path
    ensures forall i, j | 0 <= i < j < |Candidates(recorded, r)| ::
              var x, y := Candidates(recorded, r)[i], Candidates(recorded, r)[j];
              x.sequence < y.sequence || (x.sequence == y.sequence && StrLe(x.id, y.id))
  {
    var kept := Filter(recorded, x => Compatible(x, r));
    FilterIs(recorded, x => Compatible(x, r));
    SortKeeps(kept, InteractionLe);
    MultisetMembers(Candidates(recorded, r), kept);
    InteractionLePreorder();
    SortSorted(kept, InteractionLe);
  }

  // ------------------------------------------------------------------ shares

  /** The share of common elements, counted: none of two disjoint sets, and otherwise the number of
      common elements to that of all. */
  lemma SimilarityCounts(a: set<string>, b: set<string>)
    requires a != {} || b != {}
    ensures |a + b| > 0 && Similarity(a, b) * |a + b| as real == |a * b| as real
    ensures Similarity(a, b) == 0.0 <==> a !! b
  {
    UnionSize(a, b);
    UnionSize(b, a);
    assert a + b == b + a;
    if a == {} || b == {} {
      assert a * b == {};
    } else {
      Divided(|a * b|, |a + b|);
      if a !! b {
        assert a * b == {};
      } else {
        var x :| x in a && x in b;
        assert x in a * b;
      }
    }
  }

  lemma Divided(m: nat, n: nat)
    requires n > 0
    ensures (m as real / n as real) * n as real == m as real
    ensures m as real / n as real == 0.0 <==> m == 0
  {
  }

  // ----------------------------------------------------------------- weights

  ghost predicate SameParts(a: seq<string>, b: seq<string>) {
    SetOf(a) == SetOf(b)
  }

  ghost predicate NothingShared(a: seq<string>, b: seq<string>) {
    a != [] && b != [] && SetOf(a) !! SetOf(b)
  }

  lemma ShareOf(a: seq<string>, b: seq<string>)
    ensures SameParts(a, b) ==> Similarity(SetOf(a), SetOf(b)) == 1.0
    ensures NothingShared(a, b) ==> Similarity(SetOf(a), SetOf(b)) == 0.0
  {
    SimilaritySame(SetOf(a));
    if NothingShared(a, b) {
      assert a[0] in SetOf(a);
      SimilarityCounts(SetOf(a), SetOf(b));
    }
  }

  /** Bodies weigh half: without them 0.5 is left, and 0.65 if there is no query to compare. */
  lemma OnlyBodiesDiffer(views: Views, x: Interaction, r: Interaction)
    requires NothingShared(views.values(x.body), views.values(r.body))
    requires SameParts(views.query(x.url), views.query(r.url)) && SameParts(x.headers, r.headers)
    ensures Score(views, x, r) == if views.query(x.url) == [] then 0.65 else 0.5
  {
    ShareOf(views.values(x.body), views.values(r.body));
    ShareOf(views.query(x.url), views.query(r.url));
    ShareOf(x.headers, r.headers);
    NoParts(views.query(x.url), views.query(r.url));
  }

  lemma NoParts(a: seq<string>, b: seq<string>)
    requires SameParts(a, b)
    ensures a == [] <==> b == []
  {
    if a != [] {
      assert a[0] in SetOf(a);
    }
    if b != [] {
      assert b[0] in SetOf(b);
    }
  }

  /** Queries weigh 0.35: without them 0.65 is left, and 0.9 if there is no body to compare. */
  lemma OnlyQueriesDiffer(views: Views, x: Interaction, r: Interaction)
    requires NothingShared(views.query(x.url), views.query(r.url))
    requires SameParts(views.values(x.body), views.values(r.body)) && SameParts(x.headers, r.headers)
    ensures Score(views, x, r) == if views.values(x.body) == [] then 0.9 else 0.65
  {
    ShareOf(views.values(x.body), views.values(r.body));
    ShareOf(views.query(x.url), views.query(r.url));
    ShareOf(x.headers, r.headers);
    NoParts(views.values(x.body), views.values(r.body));
  }

  /** Headers weigh 0.15: without them 0.85 is left, and everything if there is no query or no body to
      compare. */
  lemma OnlyHeadersDiffer(views: Views, x: Interaction, r: Interaction)
    requires NothingShared(x.headers, r.headers)
    requires SameParts(views.values(x.body), views.values(r.body)) && SameParts(views.query(x.url), views.query(r.url))
    ensures Score(views, x, r) == if views.values(x.body) == [] || views.query(x.url) == [] then 1.0 else 0.85
  {
    ShareOf(views.values(x.body), views.values(r.body));
    ShareOf(views.query(x.url), views.query(r.url));
    ShareOf(x.headers, r.headers);
    NoParts(views.values(x.body), views.values(r.body));
    NoParts(views.query(x.url), views.query(r.url));
  }

  /** With bodies and queries to compare, the weighted shares add up. */
  lemma ScoreAdds(views: Views, x: Interaction, r: Interaction)
    requires views.values(x.body) != [] || views.values(r.body) != []
    requires views.query(x.url) != [] || views.query(r.url) != []
    ensures
      Score(views, x, r)
      == Similarity(SetOf(views.values(x.body)), SetOf(views.values(r.body))) / 2.0
         + Similarity(SetOf(views.query(x.url)), SetOf(views.query(r.url))) * 0.35
         + Similarity(SetOf(x.headers), SetOf(r.headers)) * 0.15
  {
    SimilarityRange(SetOf(views.query(x.url)), SetOf(views.query(r.url)));
    SimilarityRange(SetOf(views.values(x.body)), SetOf(views.values(r.body)));
    SimilarityRange(SetOf(x.headers), SetOf(r.headers));
  }

  function AtMostOne(score: real): real {
    if score > 1.0 then 1.0 else score
  }

  /** Without bodies 0.75 is given, without queries 0.5, and without either the full score. */
  lemma ScoreWithout(views: Views, x: Interaction, r: Interaction)
    ensures
      var bare := views.values(x.body) == [] && views.values(r.body) == [];
      var plain := views.query(x.url) == [] && views.query(r.url) == [];
      var headers := Similarity(SetOf(x.headers), SetOf(r.headers)) * 0.15;
      && (bare && plain ==> Score(views, x, r) == 1.0)
      && (bare && !plain ==>
            Score(views, x, r)
            == AtMostOne(0.75 + Similarity(SetOf(views.query(x.url)), SetOf(views.query(r.url))) * 0.35 + headers))
      && (!bare && plain ==>
            Score(views, x, r)
            == AtMostOne(0.5 + Similarity(SetOf(views.values(x.body)), SetOf(views.values(r.body))) / 2.0 + headers))
  {
    SimilarityRange(SetOf(x.headers), SetOf(r.headers));
  }

  // ------------------------------------------------------------------ answer

  /** The answer, tier by tier: the first recording with the very URL and body if exact answers are
      allowed; a nearest one if those are and some candidate scores at least 0.35; the candidates for
      synthesis if that is allowed and there is a synthesizer; else none. */
  lemma AnswerIs(views: Views, allowed: set<Tier>, synthesizer: bool, recorded: seq<Interaction>, r: Interaction)
    ensures
      var cs := Candidates(recorded, r);
      var exact := Exact in allowed && exists x :: x in cs && x.url == r.url && x.body == r.body;
      var near := NearestNeighbor in allowed && exists x :: x in cs && Score(views, x, r) >= 0.35;
      match Match(views, allowed, synthesizer, recorded, r)
      case Matched(x, score) => exact && x in cs && x.url == r.url && x.body == r.body && score == 1.0
      case Nearest(x, score) =>
        !exact && near && x in cs && score == Score(views, x, r) && forall y | y in cs :: Score(views, y, r) <= score
      case Synthesize(candidates) => !exact && !near && StateSynthesis in allowed && synthesizer && candidates == cs
      case NoMatch => !exact && !near && !(StateSynthesis in allowed && synthesizer)
  {
    var cs := Candidates(recorded, r);
    FirstExactIs(cs, r);
    FirstBestIs(ScoreOf(views, r), cs, |cs|);
  }
}
