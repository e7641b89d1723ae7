/** What the alignment of two runs guarantees. */
module RunDiffLaws {
  import opened Results
  import opened RunDiff
  import opened Sorting
  import opened Text

  // -------------------------------------------------------- the keys in use

  lemma {:induction false} ExtraKeysAre(rules: Rules, ob: seq<Interaction>, oc: seq<Interaction>, n: nat)
    requires n <= |oc|
    ensures NoRepeats(ExtraKeys(rules, ob, oc, n))
    ensures forall k :: k in ExtraKeys(rules, ob, oc, n) <==>
                        At(rules, ob, |ob|, k).None? && exists i :: 0 <= i < n && KeyAt(rules, oc, i) == k
  {
    if n > 0 {
      ExtraKeysAre(rules, ob, oc, n - 1);
      var key := KeyAt(rules, oc, n - 1);
      forall i | 0 <= i < n - 1
        ensures KeyAt(rules, oc, i) != key
      {
        KeysDistinct(rules, oc, i, n - 1);
      }
    }
  }

  /** Each key either side uses is listed once. */
  lemma AllKeysAre(rules: Rules, ob: seq<Interaction>, oc: seq<Interaction>)
    ensures NoRepeats(AllKeys(rules, ob, oc))
    ensures forall k :: k in AllKeys(rules, ob, oc) <==> At(rules, ob, |ob|, k).Some? || At(rules, oc, |oc|, k).Some?
  {
    ExtraKeysAre(rules, ob, oc, |oc|);
    forall i, j | 0 <= i < j < |ob|
      ensures KeyAt(rules, ob, i) != KeyAt(rules, ob, j)
    {
      KeysDistinct(rules, ob, i, j);
    }
    forall k
      ensures k in BaseKeys(rules, ob, |ob|) <==> At(rules, ob, |ob|, k).Some?
    {
      if i :| 0 <= i < |ob| && KeyAt(rules, ob, i) == k {
        assert BaseKeys(rules, ob, |ob|)[i] == k;
      }
    }
    Joined(BaseKeys(rules, ob, |ob|), ExtraKeys(rules, ob, oc, |oc|));
  }

  /** The pairs before sorting: one for each key, no pair twice. */
  lemma UnsortedAre(rules: Rules, ob: seq<Interaction>, oc: seq<Interaction>)
    ensures NoRepeats(Unsorted(rules, ob, oc))
    ensures forall p :: p in Unsorted(rules, ob, oc) <==>
                        p == PairAt(rules, ob, oc, p.key) && (p.base.Some? || p.candidate.Some?)
  {
    AllKeysAre(rules, ob, oc);
    var keys, ps := AllKeys(rules, ob, oc), Unsorted(rules, ob, oc);
    assert forall i | 0 <= i < |ps| :: ps[i] == PairAt(rules, ob, oc, keys[i]);
    forall p
      ensures p in ps <==> p == PairAt(rules, ob, oc, p.key) && p.key in keys
    {
      if p.key in keys && p == PairAt(rules, ob, oc, p.key) {
        var i :| 0 <= i < |keys| && keys[i] == p.key;
        assert ps[i] == p;
      }
    }
  }

  lemma PairLePreorder()
    ensures Preorder(PairLe)
  {
    forall p: Pair, q: Pair
      ensures PairLe(p, q) || PairLe(q, p)
    {
      StrLeTotal(p.key, q.key);
    }
    forall p: Pair, q: Pair, r: Pair | PairLe(p, q) && PairLe(q, r)
      ensures PairLe(p, r)
    {
      if PairSequence(p) == PairSequence(r) {
        StrLeTransitive(p.key, q.key, r.key);
      }
    }
  }

  lemma InteractionLePreorder()
    ensures Preorder(InteractionLe)
  {
    forall a: Interaction, b: Interaction
      ensures InteractionLe(a, b) || InteractionLe(b, a)
    {
      StrLeTotal(a.id, b.id);
    }
    forall a: Interaction, b: Interaction, c: Interaction | InteractionLe(a, b) && InteractionLe(b, c)
      ensures InteractionLe(a, c)
    {
      if a.sequence == c.sequence {
        StrLeTransitive(a.id, b.id, c.id);
      }
    }
  }

  lemma SortMembers<T(!new)>(s: seq<T>, le: (T, T) -> bool)
    requires NoRepeats(s)
    ensures NoRepeats(Sort(s, le)) && forall x :: x in Sort(s, le) <==> x in s
  {
    SortKeeps(s, le);
    MultisetMembers(Sort(s, le), s);
    var r := Sort(s, le);
    forall i, j | 0 <= i < j < |r|
      ensures r[i] != r[j]
    {
      AtMostOnce(s, r[i]);
      if r[i] == r[j] {
        TwiceCounts(r, i, j);
      }
    }
  }

  // ------------------------------------- the i-th occurrence meets the i-th

  /** Exactly the pairs of equally numbered occurrences, each once, in order of sequence. */
  lemma OccurrencesMeet(rules: Rules, base: seq<Interaction>, candidate: seq<Interaction>)
    ensures
      var ob, oc := Ordered(base), Ordered(candidate);
      var ps := Aligned(rules, base, candidate);
      && NoRepeats(ps) && Sorted(ps, PairLe)
      && (forall b, n: nat :: NthPair(rules, ob, oc, b, n) in ps <==>
                              1 <= n && (n <= |All(rules, ob, b)| || n <= |All(rules, oc, b)|))
      && (forall p | p in ps :: exists b, n: nat :: p == NthPair(rules, ob, oc, b, n))
  {
    var ob, oc := Ordered(base), Ordered(candidate);
    UnsortedAre(rules, ob, oc);
    SortMembers(Unsorted(rules, ob, oc), PairLe);
    PairLePreorder();
    SortSorted(Unsorted(rules, ob, oc), PairLe);
    forall b, n: nat
      ensures PairAt(rules, ob, oc, OccurrenceKey(b, n)) == NthPair(rules, ob, oc, b, n)
    {
      AtNth(rules, ob, b, n);
      AtNth(rules, oc, b, n);
    }
    forall p | p in Unsorted(rules, ob, oc)
      ensures exists b, n: nat :: p == NthPair(rules, ob, oc, b, n)
    {
      var xs := if p.base.Some? then ob else oc;
      var i :| 0 <= i < |xs| && KeyAt(rules, xs, i) == p.key;
      var b := Identity(rules, xs[i]);
      assert p == NthPair(rules, ob, oc, b, Count(rules, xs, i + 1, b));
    }
  }

  // ------------------------------------------------------------ conservation

  function Bases(ps: seq<Pair>): seq<Interaction> {
    if ps == [] then [] else BaseOf(ps[0]) + Bases(ps[1..])
  }

  function BaseOf(p: Pair): seq<Interaction> {
    if p.base.Some? then [p.base.value] else []
  }

  function Swap(p: Pair): Pair {
    Pair(p.key, p.candidate, p.base)
  }

  function Candidates(ps: seq<Pair>): seq<Interaction> {
    Bases(Map(ps, Swap))
  }

  lemma {:induction false} BasesAppend(ps: seq<Pair>, qs: seq<Pair>)
    ensures Bases(ps + qs) == Bases(ps) + Bases(qs)
  {
    if ps == [] {
      assert ps + qs == qs;
    } else {
      assert (ps + qs)[1..] == ps[1..] + qs;
      BasesAppend(ps[1..], qs);
    }
  }

  lemma {:induction false} BasesPermute(ps: seq<Pair>, qs: seq<Pair>)
    requires multiset(ps) == multiset(qs)
    ensures multiset(Bases(ps)) == multiset(Bases(qs))
    decreases |ps|
  {
    if ps == [] {
      assert |multiset(qs)| == |qs|;
    } else {
      var p := ps[0];
      var j := FindHead(ps, qs);
      assert ps == [p] + ps[1..];
      BasesPermute(ps[1..], qs[..j] + qs[j + 1..]);
      BasesAppend(qs[..j], qs[j + 1..]);
      BasesAppend([p], ps[1..]);
      BasesAppend(qs[..j], [p]);
      BasesAppend(qs[..j] + [p], qs[j + 1..]);
    }
  }

  lemma {:induction false} BasesAt(ps: seq<Pair>, xs: seq<Interaction>)
    requires |xs| <= |ps|
    requires forall i | 0 <= i < |xs| :: ps[i].base == Some(xs[i])
    requires forall i | |xs| <= i < |ps| :: ps[i].base == None
    ensures Bases(ps) == xs
  {
    if ps != [] {
      if xs == [] {
        BasesAt(ps[1..], []);
      } else {
        BasesAt(ps[1..], xs[1..]);
      }
    }
  }

  lemma UnsortedBases(rules: Rules, ob: seq<Interaction>, oc: seq<Interaction>)
    ensures Bases(Unsorted(rules, ob, oc)) == ob
  {
    var keys, ps := AllKeys(rules, ob, oc), Unsorted(rules, ob, oc);
    ExtraKeysAre(rules, ob, oc, |oc|);
    forall i | 0 <= i < |ps|
      ensures ps[i].base == if i < |ob| then Some(ob[i]) else None
    {
      if i < |ob| {
        AtIs(rules, ob, |ob|, i);
      } else {
        assert keys[i] == ExtraKeys(rules, ob, oc, |oc|)[i - |ob|];
        assert keys[i] in ExtraKeys(rules, ob, oc, |oc|);
      }
    }
    BasesAt(ps, ob);
  }

  lemma SwapOnce(ps: seq<Pair>)
    requires NoRepeats(ps)
    ensures NoRepeats(Map(ps, Swap)) && forall q :: q in Map(ps, Swap) <==> Swap(q) in ps
  {
    var qs := Map(ps, Swap);
    forall i, j | 0 <= i < j < |qs|
      ensures qs[i] != qs[j]
    {
      assert Swap(qs[i]) == ps[i] && Swap(qs[j]) == ps[j];
    }
    forall q
      ensures q in qs <==> Swap(q) in ps
    {
      if Swap(q) in ps {
        var i :| 0 <= i < |ps| && ps[i] == Swap(q);
        assert qs[i] == q;
      }
    }
  }

  /** Swapping the runs swaps the sides of the pairs. */
  lemma UnsortedSwap(rules: Rules, ob: seq<Interaction>, oc: seq<Interaction>)
    ensures multiset(Map(Unsorted(rules, ob, oc), Swap)) == multiset(Unsorted(rules, oc, ob))
  {
    UnsortedAre(rules, ob, oc);
    UnsortedAre(rules, oc, ob);
    SwapOnce(Unsorted(rules, ob, oc));
    SameMembers(Map(Unsorted(rules, ob, oc), Swap), Unsorted(rules, oc, ob));
  }

  /** Every interaction of either run is in exactly one pair. */
  lemma NothingLost(rules: Rules, base: seq<Interaction>, candidate: seq<Interaction>)
    ensures multiset(Bases(Aligned(rules, base, candidate))) == multiset(base)
    ensures multiset(Candidates(Aligned(rules, base, candidate))) == multiset(candidate)
  {
    var ob, oc := Ordered(base), Ordered(candidate);
    var us, ps := Unsorted(rules, ob, oc), Aligned(rules, base, candidate);
    SortKeeps(base, InteractionLe);
    SortKeeps(candidate, InteractionLe);
    SortKeeps(us, PairLe);
    BasesPermute(ps, us);
    UnsortedBases(rules, ob, oc);
    MapPermute(ps, us, Swap);
    UnsortedSwap(rules, ob, oc);
    BasesPermute(Map(ps, Swap), Unsorted(rules, oc, ob));
    UnsortedBases(rules, oc, ob);
  }

  // ---------------------------------------------------------------- counting

  function Tally(ps: seq<Pair>, f: Pair -> bool): nat {
    if ps == [] then 0 else (if f(ps[0]) then 1 else 0) + Tally(ps[1..], f)
  }

  predicate Matched(p: Pair) { p.base.Some? && p.candidate.Some? }
  predicate OnlyBase(p: Pair) { p.base.Some? && p.candidate.None? }
  predicate OnlyCandidate(p: Pair) { p.base.None? && p.candidate.Some? }

  lemma {:induction false} TallySides(ps: seq<Pair>)
    ensures Tally(ps, Matched) + Tally(ps, OnlyBase) == |Bases(ps)|
    ensures Tally(ps, Matched) + Tally(ps, OnlyCandidate) == |Candidates(ps)|
  {
    if ps != [] {
      TallySides(ps[1..]);
      assert Map(ps, Swap)[1..] == Map(ps[1..], Swap);
    }
  }

  /** Matched plus removed is the base run; matched plus added is the candidate run. */
  lemma CountsAddUp(rules: Rules, base: seq<Interaction>, candidate: seq<Interaction>)
    ensures
      var ps := Aligned(rules, base, candidate);
      && Tally(ps, Matched) + Tally(ps, OnlyBase) == |base|
      && Tally(ps, Matched) + Tally(ps, OnlyCandidate) == |candidate|
  {
    var ps := Aligned(rules, base, candidate);
    NothingLost(rules, base, candidate);
    TallySides(ps);
    assert |multiset(Bases(ps))| == |Bases(ps)| && |multiset(base)| == |base|;
    assert |multiset(Candidates(ps))| == |Candidates(ps)| && |multiset(candidate)| == |candidate|;
  }

  function Least(m: nat, n: nat): nat {
    if m <= n then m else n
  }

  lemma MatchedIsNth(rules: Rules, base: seq<Interaction>, candidate: seq<Interaction>, p: Pair) returns (n: nat)
    requires p in Aligned(rules, base, candidate) && Matched(p)
    ensures
      var ob, oc, b := Ordered(base), Ordered(candidate), Identity(rules, p.base.value);
      1 <= n <= Least(|All(rules, ob, b)|, |All(rules, oc, b)|) && p == NthPair(rules, ob, oc, b, n)
  {
    var ob, oc := Ordered(base), Ordered(candidate);
    OccurrencesMeet(rules, base, candidate);
    var c, m: nat :| p == NthPair(rules, ob, oc, c, m);
    OccurrencesHave(rules, ob, |ob|, c);
    assert All(rules, ob, c)[m - 1] == p.base.value;
    n := m;
  }

  lemma NthIsMatched(rules: Rules, base: seq<Interaction>, candidate: seq<Interaction>, b: string, n: nat)
    requires 1 <= n <= Least(|All(rules, Ordered(base), b)|, |All(rules, Ordered(candidate), b)|)
    ensures
      var p := NthPair(rules, Ordered(base), Ordered(candidate), b, n);
      p in Aligned(rules, base, candidate) && Matched(p) && Identity(rules, p.base.value) == b
  {
    var ob := Ordered(base);
    OccurrencesMeet(rules, base, candidate);
    OccurrencesHave(rules, ob, |ob|, b);
    assert All(rules, ob, b)[n - 1] in All(rules, ob, b);
  }

  ghost predicate MatchedAs(rules: Rules, base: seq<Interaction>, candidate: seq<Interaction>, b: string, p: Pair) {
    p in Aligned(rules, base, candidate) && Matched(p) && Identity(rules, p.base.value) == b
  }

  ghost function Nths(rules: Rules, ob: seq<Interaction>, oc: seq<Interaction>, b: string): nat -> Pair {
    (n: nat) => NthPair(rules, ob, oc, b, n)
  }

  lemma NthsSize(rules: Rules, ob: seq<Interaction>, oc: seq<Interaction>, b: string, n: nat)
    ensures |Values(Nths(rules, ob, oc, b), n)| == n
  {
    var nth := Nths(rules, ob, oc, b);
    forall i: nat, j: nat | 1 <= i < j <= n
      ensures nth(i) != nth(j)
    {
      if nth(i) == nth(j) {
        KeyInjective(b, i, b, j);
      }
    }
    ValuesSize(nth, n);
  }

  lemma MatchedMember(rules: Rules, base: seq<Interaction>, candidate: seq<Interaction>, b: string, p: Pair, least: nat)
    requires least == Least(|All(rules, Ordered(base), b)|, |All(rules, Ordered(candidate), b)|)
    ensures MatchedAs(rules, base, candidate, b, p) <==>
            p in Values(Nths(rules, Ordered(base), Ordered(candidate), b), least)
  {
    var nth := Nths(rules, Ordered(base), Ordered(candidate), b);
    ValuesAre(nth, least, p);
    if MatchedAs(rules, base, candidate, b, p) {
      var n := MatchedIsNth(rules, base, candidate, p);
      assert p == nth(n);
    }
    if m: nat :| 1 <= m <= least && p == nth(m) {
      NthIsMatched(rules, base, candidate, b, m);
    }
  }

  /** An identity is matched as often as it occurs on the side where it occurs less. */
  lemma MatchedIsLeast(rules: Rules, base: seq<Interaction>, candidate: seq<Interaction>, b: string)
    ensures
      |set p | p in Aligned(rules, base, candidate) && MatchedAs(rules, base, candidate, b, p)|
      == Least(|All(rules, Ordered(base), b)|, |All(rules, Ordered(candidate), b)|)
  {
    var least := Least(|All(rules, Ordered(base), b)|, |All(rules, Ordered(candidate), b)|);
    var nth := Nths(rules, Ordered(base), Ordered(candidate), b);
    forall p
      ensures MatchedAs(rules, base, candidate, b, p) <==> p in Values(nth, least)
    {
      MatchedMember(rules, base, candidate, b, p, least);
    }
    NthsSize(rules, Ordered(base), Ordered(candidate), b, least);
    assert (set p | p in Aligned(rules, base, candidate) && MatchedAs(rules, base, candidate, b, p)) == Values(nth, least);
  }

  lemma {:induction false} OccurrencesHave(rules: Rules, xs: seq<Interaction>, n: nat, b: string)
    requires n <= |xs|
    ensures forall x | x in Occurrences(rules, xs, n, b) :: Identity(rules, x) == b
  {
    if n > 0 {
      OccurrencesHave(rules, xs, n - 1, b);
    }
  }

  // --------------------------------------------------------- the input order

  /** No two interactions of a run share both sequence and id. */
  ghost predicate DistinctPlaces(xs: seq<Interaction>) {
    forall i, j | 0 <= i < j < |xs| :: xs[i].sequence != xs[j].sequence || xs[i].id != xs[j].id
  }

  lemma OrderedPermutes(xs: seq<Interaction>, ys: seq<Interaction>)
    requires DistinctPlaces(xs) && multiset(xs) == multiset(ys)
    ensures Ordered(xs) == Ordered(ys)
  {
    InteractionLePreorder();
    forall i, j | 0 <= i < |xs| && 0 <= j < |xs| && InteractionLe(xs[i], xs[j]) && InteractionLe(xs[j], xs[i])
      ensures xs[i] == xs[j]
    {
      StrLeAntisymmetric(xs[i].id, xs[j].id);
    }
    SortPermutation(xs, ys, InteractionLe);
  }

  /** When places are distinct, the order in which either run lists its interactions is irrelevant. */
  lemma InputOrderIrrelevant(rules: Rules, base: Run, candidate: Run, base': Run, candidate': Run)
    requires DistinctPlaces(base.interactions) && DistinctPlaces(candidate.interactions)
    requires base.session == base'.session && multiset(base.interactions) == multiset(base'.interactions)
    requires candidate.session == candidate'.session
    requires multiset(candidate.interactions) == multiset(candidate'.interactions)
    ensures Comparison(rules, base, candidate) == Comparison(rules, base', candidate')
  {
    OrderedPermutes(base.interactions, base'.interactions);
    OrderedPermutes(candidate.interactions, candidate'.interactions);
  }

  // ------------------------------------------------------------- no changes

  lemma {:induction false} NoChangesHere(rules: Rules, ps: seq<Pair>)
    ensures AllChanges(rules, ps) == [] <==> forall p | p in ps :: Changes(rules, p) == []
  {
    if ps != [] {
      var front, last := ps[..|ps| - 1], ps[|ps| - 1];
      NoChangesHere(rules, front);
      assert ps == front + [last];
    }
  }

  /** The two interactions agree in everything a comparison reports. */
  ghost predicate Agrees(rules: Rules, b: Interaction, c: Interaction) {
    b.sequence == c.sequence && Rank(c.tier) <= Rank(b.tier) && !Differs(rules, b, c)
  }

  /** Both runs have the same number of every identity, and the n-th agrees with the n-th. */
  ghost predicate Alike(rules: Rules, ob: seq<Interaction>, oc: seq<Interaction>) {
    forall b :: AlikeFor(rules, All(rules, ob, b), All(rules, oc, b))
  }

  ghost predicate AlikeFor(rules: Rules, xs: seq<Interaction>, ys: seq<Interaction>) {
    |xs| == |ys| && forall n | 0 <= n < |xs| :: Agrees(rules, xs[n], ys[n])
  }

  lemma AlikeMeansNoChange(rules: Rules, base: seq<Interaction>, candidate: seq<Interaction>)
    requires Alike(rules, Ordered(base), Ordered(candidate))
    ensures forall p | p in Aligned(rules, base, candidate) :: Changes(rules, p) == []
  {
    OccurrencesMeet(rules, base, candidate);
    forall p | p in Aligned(rules, base, candidate)
      ensures Changes(rules, p) == []
    {
      var b, n: nat :| p == NthPair(rules, Ordered(base), Ordered(candidate), b, n);
      assert AlikeFor(rules, All(rules, Ordered(base), b), All(rules, Ordered(candidate), b));
    }
  }

  lemma NthAgrees(rules: Rules, base: seq<Interaction>, candidate: seq<Interaction>, b: string, n: nat)
    requires forall p | p in Aligned(rules, base, candidate) :: Changes(rules, p) == []
    requires 1 <= n
    requires n <= |All(rules, Ordered(base), b)| || n <= |All(rules, Ordered(candidate), b)|
    ensures
      var xs, ys := All(rules, Ordered(base), b), All(rules, Ordered(candidate), b);
      n <= |xs| && n <= |ys| && Agrees(rules, xs[n - 1], ys[n - 1])
  {
    OccurrencesMeet(rules, base, candidate);
    var p := NthPair(rules, Ordered(base), Ordered(candidate), b, n);
    assert Changes(rules, p) == [];
  }

  lemma NoChangeMeansAlike(rules: Rules, base: seq<Interaction>, candidate: seq<Interaction>, b: string)
    requires forall p | p in Aligned(rules, base, candidate) :: Changes(rules, p) == []
    ensures AlikeFor(rules, All(rules, Ordered(base), b), All(rules, Ordered(candidate), b))
  {
    var xs, ys := All(rules, Ordered(base), b), All(rules, Ordered(candidate), b);
    if |xs| > 0 {
      NthAgrees(rules, base, candidate, b, |xs|);
    }
    if |ys| > 0 {
      NthAgrees(rules, base, candidate, b, |ys|);
    }
    forall n | 0 <= n < |xs|
      ensures Agrees(rules, xs[n], ys[n])
    {
      NthAgrees(rules, base, candidate, b, n + 1);
    }
  }

  /** A comparison is empty exactly when the runs are alike. */
  lemma NoChangesIff(rules: Rules, base: Run, candidate: Run)
    requires !Blank(base.session) && base.session == candidate.session
    ensures Comparison(rules, base, candidate) == Ok([]) <==>
            Alike(rules, Ordered(base.interactions), Ordered(candidate.interactions))
  {
    NoChangesHere(rules, Aligned(rules, base.interactions, candidate.interactions));
    if Alike(rules, Ordered(base.interactions), Ordered(candidate.interactions)) {
      AlikeMeansNoChange(rules, base.interactions, candidate.interactions);
    }
    if Comparison(rules, base, candidate) == Ok([]) {
      forall b: string
        ensures AlikeFor(rules, All(rules, Ordered(base.interactions), b), All(rules, Ordered(candidate.interactions), b))
      {
        NoChangeMeansAlike(rules, base.interactions, candidate.interactions, b);
      }
    }
  }

  /** A run compared with itself shows no change. */
  lemma SelfComparison(rules: Rules, run: Run)
    requires !Blank(run.session)
    ensures Comparison(rules, run, run) == Ok([])
  {
    NoChangesIff(rules, run, run);
  }

  // ------------------------------------------------- one report for each pair

  function TallyKind(cs: seq<Change>, kind: Kind): nat {
    if cs == [] then 0 else TallyKind(cs[..|cs| - 1], kind) + if cs[|cs| - 1].kind == kind then 1 else 0
  }

  lemma {:induction false} TallyKindAppend(cs: seq<Change>, ds: seq<Change>, kind: Kind)
    ensures TallyKind(cs + ds, kind) == TallyKind(cs, kind) + TallyKind(ds, kind)
  {
    if ds == [] {
      assert cs + ds == cs;
    } else {
      assert (cs + ds)[..|cs + ds| - 1] == cs + ds[..|ds| - 1];
      TallyKindAppend(cs, ds[..|ds| - 1], kind);
    }
  }

  lemma {:induction false} TallyAppend(ps: seq<Pair>, p: Pair, f: Pair -> bool)
    ensures Tally(ps + [p], f) == Tally(ps, f) + if f(p) then 1 else 0
  {
    if ps != [] {
      assert (ps + [p])[1..] == ps[1..] + [p];
      TallyAppend(ps[1..], p, f);
    }
  }

  /** A kind of change that only certain pairs cause, each once, is reported as often as there are
      such pairs. */
  lemma TallyChanges(rules: Rules, ps: seq<Pair>, kind: Kind, f: Pair -> bool)
    requires forall p :: TallyKind(Changes(rules, p), kind) == if f(p) then 1 else 0
    ensures ReportedAs(rules, kind, f, ps)
  {
    var p := (prefix: seq<Pair>) => ReportedAs(rules, kind, f, prefix);
    forall prefix, last | p(prefix)
      ensures p(prefix + [last])
    {
      ReportedOneMore(rules, prefix, last, kind, f);
    }
    PrefixInduction(ps, p);
  }

  ghost predicate ReportedAs(rules: Rules, kind: Kind, f: Pair -> bool, ps: seq<Pair>) {
    TallyKind(AllChanges(rules, ps), kind) == Tally(ps, f)
  }

  lemma ReportedOneMore(rules: Rules, ps: seq<Pair>, last: Pair, kind: Kind, f: Pair -> bool)
    requires ReportedAs(rules, kind, f, ps) && TallyKind(Changes(rules, last), kind) == if f(last) then 1 else 0
    ensures ReportedAs(rules, kind, f, ps + [last])
  {
    TallyAppend(ps, last, f);
    TallyKindAppend(AllChanges(rules, ps), Changes(rules, last), kind);
    assert (ps + [last])[..|ps|] == ps;
  }

  lemma TallyOne(rules: Rules, p: Pair)
    ensures TallyKind(Changes(rules, p), Added) == if OnlyCandidate(p) then 1 else 0
    ensures TallyKind(Changes(rules, p), Removed) == if OnlyBase(p) then 1 else 0
  {
    if Matched(p) {
      NoneOfKind(Changes(rules, p), Added);
      NoneOfKind(Changes(rules, p), Removed);
    }
  }

  lemma {:induction false} NoneOfKind(cs: seq<Change>, kind: Kind)
    requires forall i | 0 <= i < |cs| :: cs[i].kind != kind
    ensures TallyKind(cs, kind) == 0
  {
    if cs != [] {
      NoneOfKind(cs[..|cs| - 1], kind);
    }
  }

  /** The additions and removals reported account for the sizes of the two runs. */
  lemma ReportAddsUp(rules: Rules, base: Run, candidate: Run)
    requires Comparison(rules, base, candidate).Ok?
    ensures
      var cs := Comparison(rules, base, candidate).value;
      TallyKind(cs, Added) + |base.interactions| == TallyKind(cs, Removed) + |candidate.interactions|
  {
    var ps := Aligned(rules, base.interactions, candidate.interactions);
    CountsAddUp(rules, base.interactions, candidate.interactions);
    forall p
      ensures TallyKind(Changes(rules, p), Added) == if OnlyCandidate(p) then 1 else 0
      ensures TallyKind(Changes(rules, p), Removed) == if OnlyBase(p) then 1 else 0
    {
      TallyOne(rules, p);
    }
    TallyChanges(rules, ps, Added, OnlyCandidate);
    TallyChanges(rules, ps, Removed, OnlyBase);
  }
}
