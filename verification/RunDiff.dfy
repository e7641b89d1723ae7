/** Comparing a candidate run with a base run: each side is put in order, interactions of one
    identity are numbered, and the same number on both sides is one pair. */
module RunDiff {
  import opened IgnorePaths
  import opened Json
  import opened Results
  import opened Sorting
  import opened Text

  datatype Interaction =
    Interaction(id: string, sequence: int, service: string, operation: string, tier: string, document: Json)

  datatype Run = Run(session: string, interactions: seq<Interaction>)

  /** The ignored paths, and what the model takes as given: the fields an interaction is recognised by
      and its document, both with the ignored query parameters gone from the url, and the text of a
      JSON value. */
  datatype Rules = Rules(
    global: set<Path>,
    services: map<string, set<Path>>,
    identity: (Interaction, set<Path>) -> Json,
    query: (Json, set<Path>) -> Json,
    encode: Json -> string)

  datatype Indexed = Indexed(key: string, item: Interaction)

  datatype Pair = Pair(key: string, base: Option<Interaction>, candidate: Option<Interaction>)

  datatype Kind = Added | Removed | Modified | OrderingChanged | FallbackRegression

  datatype Change = Change(kind: Kind, failing: bool, base: Option<Interaction>, candidate: Option<Interaction>)

  datatype Error = NoSession | OtherSession

  function Ignored(rules: Rules, x: Interaction): set<Path> {
    if x.service in rules.services then rules.global + rules.services[x.service] else rules.global
  }

  /** The identity of an interaction, without what its service ignores. */
  ghost function Identity(rules: Rules, x: Interaction): string {
    var ignored := Ignored(rules, x);
    rules.encode(RemoveAll(rules.identity(x, ignored), Members(ignored)))
  }

  /** What is compared: the document without what the base interaction's service ignores. */
  ghost function Canonical(rules: Rules, x: Interaction, ignored: set<Path>): Json {
    RemoveAll(rules.query(x.document, ignored), Members(ignored))
  }

  predicate InteractionLe(a: Interaction, b: Interaction) {
    a.sequence < b.sequence || (a.sequence == b.sequence && StrLe(a.id, b.id))
  }

  function Ordered(xs: seq<Interaction>): seq<Interaction> {
    Sort(xs, InteractionLe)
  }

  // -------------------------------------------------------- occurrence keys

  /** How many of the first n interactions have identity b. */
  ghost function Count(rules: Rules, xs: seq<Interaction>, n: nat, b: string): nat
    requires n <= |xs|
  {
    if n == 0 then 0 else Count(rules, xs, n - 1, b) + if Identity(rules, xs[n - 1]) == b then 1 else 0
  }

  function OccurrenceKey(b: string, n: nat): string {
    b + ['\0'] + Dec(n)
  }

  ghost function KeyAt(rules: Rules, xs: seq<Interaction>, i: nat): string
    requires i < |xs|
  {
    OccurrenceKey(Identity(rules, xs[i]), Count(rules, xs, i + 1, Identity(rules, xs[i])))
  }

  /** The decimal number ends at the last NUL, so a key determines identity and number. */
  lemma KeyInjective(b: string, m: nat, c: string, n: nat)
    requires OccurrenceKey(b, m) == OccurrenceKey(c, n)
    ensures b == c && m == n
  {
    var k := OccurrenceKey(b, m);
    assert k[|b|] == '\0' && k[|c|] == '\0';
    assert forall i | |b| < i < |k| :: k[i] == Dec(m)[i - |b| - 1];
    assert forall i | |c| < i < |k| :: k[i] == Dec(n)[i - |c| - 1];
    assert |b| == |c|;
    assert k[..|b|] == b && k[..|c|] == c;
    assert k[|b| + 1..] == Dec(m) && k[|c| + 1..] == Dec(n);
    DecValue(m);
    DecValue(n);
  }

  lemma {:induction false} CountGrows(rules: Rules, xs: seq<Interaction>, m: nat, n: nat, b: string)
    requires m <= n <= |xs|
    ensures Count(rules, xs, m, b) <= Count(rules, xs, n, b)
  {
    if m < n {
      CountGrows(rules, xs, m, n - 1, b);
    }
  }

  lemma KeysDistinct(rules: Rules, xs: seq<Interaction>, i: nat, j: nat)
    requires i < j < |xs|
    ensures KeyAt(rules, xs, i) != KeyAt(rules, xs, j)
  {
    if KeyAt(rules, xs, i) == KeyAt(rules, xs, j) {
      var b := Identity(rules, xs[j]);
      KeyInjective(Identity(rules, xs[i]), Count(rules, xs, i + 1, Identity(rules, xs[i])), b, Count(rules, xs, j + 1, b));
      CountGrows(rules, xs, i + 1, j, b);
    }
  }

  // -------------------------------------------- occurrences of one identity

  /** The interactions of identity b among the first n, in order. */
  ghost function Occurrences(rules: Rules, xs: seq<Interaction>, n: nat, b: string): (r: seq<Interaction>)
    requires n <= |xs|
    ensures |r| == Count(rules, xs, n, b)
  {
    if n == 0 then []
    else Occurrences(rules, xs, n - 1, b) + if Identity(rules, xs[n - 1]) == b then [xs[n - 1]] else []
  }

  ghost function All(rules: Rules, xs: seq<Interaction>, b: string): seq<Interaction> {
    Occurrences(rules, xs, |xs|, b)
  }

  function Nth(s: seq<Interaction>, n: nat): Option<Interaction> {
    if 1 <= n <= |s| then Some(s[n - 1]) else None
  }

  /** The pair for the n-th occurrence of identity b on either side. */
  ghost function NthPair(rules: Rules, ob: seq<Interaction>, oc: seq<Interaction>, b: string, n: nat): Pair {
    Pair(OccurrenceKey(b, n), Nth(All(rules, ob, b), n), Nth(All(rules, oc, b), n))
  }

  lemma {:induction false} OccurrenceAt(rules: Rules, xs: seq<Interaction>, n: nat, i: nat)
    requires i < n <= |xs|
    ensures
      var b := Identity(rules, xs[i]);
      var m := Count(rules, xs, i + 1, b);
      1 <= m <= Count(rules, xs, n, b) && Occurrences(rules, xs, n, b)[m - 1] == xs[i]
  {
    if i < n - 1 {
      OccurrenceAt(rules, xs, n - 1, i);
    }
  }

  lemma {:induction false} OccurrenceExists(
    rules: Rules, xs: seq<Interaction>, n: nat, b: string, m: nat) returns (i: nat)
    requires n <= |xs| && 1 <= m <= Count(rules, xs, n, b)
    ensures i < n && Identity(rules, xs[i]) == b && Count(rules, xs, i + 1, b) == m
  {
    if Count(rules, xs, n - 1, b) < m {
      i := n - 1;
    } else {
      i := OccurrenceExists(rules, xs, n - 1, b, m);
    }
  }

  // --------------------------------------------------------------- pairing

  /** The interaction a side has under a key among its first n. */
  ghost function At(rules: Rules, xs: seq<Interaction>, n: nat, key: string): Option<Interaction>
    requires n <= |xs|
  {
    if exists i :: 0 <= i < n && KeyAt(rules, xs, i) == key
    then var i :| 0 <= i < n && KeyAt(rules, xs, i) == key; Some(xs[i])
    else None
  }

  lemma AtIs(rules: Rules, xs: seq<Interaction>, n: nat, i: nat)
    requires i < n <= |xs|
    ensures At(rules, xs, n, KeyAt(rules, xs, i)) == Some(xs[i])
  {
    var key := KeyAt(rules, xs, i);
    forall j | 0 <= j < n && KeyAt(rules, xs, j) == key
      ensures j == i
    {
      if j < i {
        KeysDistinct(rules, xs, j, i);
      } else if i < j {
        KeysDistinct(rules, xs, i, j);
      }
    }
  }

  /** A side's interaction under OccurrenceKey(b, n) is its n-th occurrence of b. */
  lemma AtNth(rules: Rules, xs: seq<Interaction>, b: string, n: nat)
    ensures At(rules, xs, |xs|, OccurrenceKey(b, n)) == Nth(All(rules, xs, b), n)
  {
    if 1 <= n <= |All(rules, xs, b)| {
      var i := OccurrenceExists(rules, xs, |xs|, b, n);
      AtIs(rules, xs, |xs|, i);
      OccurrenceAt(rules, xs, |xs|, i);
    } else {
      forall i | 0 <= i < |xs|
        ensures KeyAt(rules, xs, i) != OccurrenceKey(b, n)
      {
        OccurrenceAt(rules, xs, |xs|, i);
        if KeyAt(rules, xs, i) == OccurrenceKey(b, n) {
          KeyInjective(Identity(rules, xs[i]), Count(rules, xs, i + 1, Identity(rules, xs[i])), b, n);
        }
      }
    }
  }

  ghost function PairAt(rules: Rules, ob: seq<Interaction>, oc: seq<Interaction>, key: string): Pair {
    Pair(key, At(rules, ob, |ob|, key), At(rules, oc, |oc|, key))
  }

  /** The pairs of the first n interactions of the candidate that have no partner in the base. */
  ghost function ExtraKeys(rules: Rules, ob: seq<Interaction>, oc: seq<Interaction>, n: nat): seq<string>
    requires n <= |oc|
  {
    if n == 0 then []
    else
      var key := KeyAt(rules, oc, n - 1);
      ExtraKeys(rules, ob, oc, n - 1) + if At(rules, ob, |ob|, key).Some? then [] else [key]
  }

  ghost function BaseKeys(rules: Rules, ob: seq<Interaction>, n: nat): (r: seq<string>)
    requires n <= |ob|
    ensures |r| == n && forall i | 0 <= i < n :: r[i] == KeyAt(rules, ob, i)
  {
    if n == 0 then [] else BaseKeys(rules, ob, n - 1) + [KeyAt(rules, ob, n - 1)]
  }

  ghost function AllKeys(rules: Rules, ob: seq<Interaction>, oc: seq<Interaction>): seq<string> {
    BaseKeys(rules, ob, |ob|) + ExtraKeys(rules, ob, oc, |oc|)
  }

  function PairSequence(p: Pair): int {
    if p.base.Some? then p.base.value.sequence
    else if p.candidate.Some? then p.candidate.value.sequence
    else 0
  }

  predicate PairLe(p: Pair, q: Pair) {
    PairSequence(p) < PairSequence(q) || (PairSequence(p) == PairSequence(q) && StrLe(p.key, q.key))
  }

  ghost function Unsorted(rules: Rules, ob: seq<Interaction>, oc: seq<Interaction>): seq<Pair> {
    Map(AllKeys(rules, ob, oc), key => PairAt(rules, ob, oc, key))
  }

  ghost function Aligned(rules: Rules, base: seq<Interaction>, candidate: seq<Interaction>): seq<Pair> {
    Sort(Unsorted(rules, Ordered(base), Ordered(candidate)), PairLe)
  }

  // ---------------------------------------------------------------- changes

  function Rank(tier: string): nat {
    match tier
    case "" => 0
    case "exact" => 0
    case "nearest_neighbor" => 1
    case "state_synthesis" => 2
    case "llm_synthesis" => 3
    case _ => 4
  }

  /** The document of the candidate differs from the base outside what the base's service ignores. */
  ghost predicate Differs(rules: Rules, b: Interaction, c: Interaction) {
    Canonical(rules, b, Ignored(rules, b)) != Canonical(rules, c, Ignored(rules, b))
  }

  ghost function Changes(rules: Rules, p: Pair): seq<Change> {
    match (p.base, p.candidate)
    case (None, None) => []
    case (None, Some(_)) => [Change(Added, true, p.base, p.candidate)]
    case (Some(_), None) => [Change(Removed, true, p.base, p.candidate)]
    case (Some(b), Some(c)) =>
      (if b.sequence != c.sequence then [Change(OrderingChanged, false, p.base, p.candidate)] else [])
      + (if Rank(c.tier) > Rank(b.tier) then [Change(FallbackRegression, true, p.base, p.candidate)] else [])
      + (if Differs(rules, b, c) then [Change(Modified, true, p.base, p.candidate)] else [])
  }

  ghost function AllChanges(rules: Rules, ps: seq<Pair>): seq<Change> {
    if ps == [] then [] else AllChanges(rules, ps[..|ps| - 1]) + Changes(rules, ps[|ps| - 1])
  }

  ghost function Comparison(rules: Rules, base: Run, candidate: Run): Result<seq<Change>, Error> {
    if Blank(base.session) || Blank(candidate.session) then Err(NoSession)
    else if base.session != candidate.session then Err(OtherSession)
    else Ok(AllChanges(rules, Aligned(rules, base.interactions, candidate.interactions)))
  }
}
