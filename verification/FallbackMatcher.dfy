/** The matcher's loops. */
module FallbackMatcher {
  import opened Fallback
  import opened Json
  import opened Results
  import opened Sorting

  method SetSimilarity(left: seq<string>, right: seq<string>) returns (similarity: real)
    ensures similarity == Similarity(SetOf(left), SetOf(right))
  {
    SetEmpty(left);
    SetEmpty(right);
    if |left| == 0 && |right| == 0 {
      return 1.0;
    }
    if |left| == 0 || |right| == 0 {
      return 0.0;
    }
    var a, b := SetOf(left), SetOf(right);
    var intersection := CountIn(a, b);
    var outside := CountIn(b, b - a);
    assert a + b == a + (b - a) && b * (b - a) == b - a;
    similarity := intersection as real / (|a| + outside) as real;
  }

  lemma SetEmpty(parts: seq<string>)
    ensures SetOf(parts) == {} <==> parts == []
  {
    if parts != [] {
      assert parts[0] in SetOf(parts);
    }
  }

  /** How many elements of a are in b, ranging over a in any order. */
  method CountIn(a: set<string>, b: set<string>) returns (n: nat)
    ensures n == |a * b|
  {
    n := 0;
    var left := a;
    while left != {}
      invariant left <= a && n + |left * b| == |a * b|
    {
      var x :| x in left;
      if x in b {
        assert left * b == (left - {x}) * b + {x};
        n := n + 1;
      } else {
        assert left * b == (left - {x}) * b;
      }
      left := left - {x};
    }
  }

  method NearestScore(views: Views, x: Interaction, r: Interaction) returns (score: real)
    ensures score == Score(views, x, r)
  {
    var query := SetSimilarity(views.query(x.url), views.query(r.url));
    var body := SetSimilarity(views.values(x.body), views.values(r.body));
    var header := SetSimilarity(x.headers, r.headers);
    score := 0.50 * body + 0.35 * query + 0.15 * header;
    if views.values(x.body) == [] && views.values(r.body) == [] {
      score := score + 0.25;
    }
    if views.query(x.url) == [] && views.query(r.url) == [] {
      score := score + 0.15;
    }
    if score > 1.0 {
      score := 1.0;
    }
  }

  /** The matcher holds its recordings and options and never changes them. */
  class Matcher {
    const views: Views
    const recorded: seq<Interaction>
    const allowed: set<Tier>
    const synthesizer: bool

    constructor (views: Views, recorded: seq<Interaction>, allowed: set<Tier>, synthesizer: bool)
      ensures this.views == views && this.recorded == recorded && this.allowed == allowed && this.synthesizer == synthesizer
    {
      this.views, this.recorded, this.allowed, this.synthesizer := views, recorded, allowed, synthesizer;
    }

    method CompatibleCandidates(r: Interaction) returns (cs: seq<Interaction>)
      ensures cs == Candidates(recorded, r)
    {
      cs := [];
      for n := 0 to |recorded|
        invariant cs == Filter(recorded[..n], x => Compatible(x, r))
      {
        assert recorded[..n + 1] == recorded[..n] + [recorded[n]];
        FilterSnoc(recorded[..n], recorded[n], x => Compatible(x, r));
        if Compatible(recorded[n], r) {
          cs := cs + [recorded[n]];
        }
      }
      assert recorded[..|recorded|] == recorded;
      cs := Sort(cs, InteractionLe);
    }

    method ExactMatch(cs: seq<Interaction>, r: Interaction) returns (found: Option<Interaction>)
      ensures found == FirstExact(cs, r)
    {
      for n := 0 to |cs|
        invariant FirstExact(cs, r) == FirstExact(cs[n..], r)
      {
        assert cs[n..][1..] == cs[n + 1..];
        if SameKey(cs[n], r) {
          return Some(cs[n]);
        }
      }
      found := None;
    }

    method NearestMatch(cs: seq<Interaction>, r: Interaction) returns (best: Option<(Interaction, real)>)
      ensures best == FirstBest(ScoreOf(views, r), cs, |cs|)
    {
      best := None;
      for n := 0 to |cs|
        invariant best == FirstBest(ScoreOf(views, r), cs, n)
      {
        var score := NearestScore(views, cs[n], r);
        if best.None? || score > best.value.1 {
          best := Some((cs[n], score));
        }
      }
    }

    method Answer(r: Interaction) returns (m: Outcome)
      ensures m == Match(views, allowed, synthesizer, recorded, r)
    {
      var cs := CompatibleCandidates(r);
      var exact := ExactMatch(cs, r);
      if Exact in allowed && exact.Some? {
        return Matched(exact.value, 1.0);
      }
      if NearestNeighbor in allowed {
        var best := NearestMatch(cs, r);
        if best.Some? && best.value.1 >= MINIMUM_SCORE {
          return Nearest(best.value.0, best.value.1);
        }
      }
      m := if StateSynthesis in allowed && synthesizer then Synthesize(cs) else NoMatch;
    }
  }
}
