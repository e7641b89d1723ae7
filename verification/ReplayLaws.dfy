/** What the replay store guarantees over every sequence of seeds and requests. */
module ReplayLaws {
  import opened Json
  import opened KeyOrder
  import opened Replay
  import opened Results

  // ------------------------------------------------- what a request matches

  ghost predicate Submap(sub: Headers, headers: Headers) {
    forall name | name in sub :: name in headers && sub[name] == headers[name]
  }

  /** The interaction was recorded from this request, perhaps with fewer headers. */
  ghost predicate Matches(x: Interaction, r: Request) {
    && x.request.verb == r.verb && x.request.url == r.url && x.request.body == r.body
    && Submap(x.request.headers, r.headers)
  }

  /** The mask of the names that sub has. */
  function MaskOf(names: seq<string>, sub: set<string>): nat {
    if names == [] then 0 else (if names[0] in sub then 1 else 0) + 2 * MaskOf(names[1..], sub)
  }

  lemma {:induction false} MaskOfIs(names: seq<string>, sub: set<string>)
    ensures MaskOf(names, sub) < Pow2(|names|)
    ensures forall i: nat | i < |names| :: Bit(MaskOf(names, sub), i) <==> names[i] in sub
  {
    if names != [] {
      MaskOfIs(names[1..], sub);
      var mask := MaskOf(names, sub);
      assert mask / 2 == MaskOf(names[1..], sub);
      forall i: nat | i < |names|
        ensures Bit(mask, i) <==> names[i] in sub
      {
        if i > 0 {
          assert Bit(mask, i) == Bit(mask / 2, i - 1);
          assert names[i] == names[1..][i - 1];
        }
      }
    }
  }

  /** More names, greater mask. */
  lemma {:induction false} MaskGrows(names: seq<string>, few: set<string>, more: set<string>)
    requires few <= more
    ensures MaskOf(names, few) <= MaskOf(names, more)
    ensures (exists name :: name in names && name in more && name !in few) ==> MaskOf(names, few) < MaskOf(names, more)
  {
    if names != [] {
      MaskGrows(names[1..], few, more);
      assert forall name | name in names && name != names[0] :: name in names[1..];
    }
  }

  lemma {:induction false} MaskOfBits(names: seq<string>, mask: nat, sub: set<string>)
    requires mask < Pow2(|names|)
    requires forall i: nat | i < |names| :: Bit(mask, i) <==> names[i] in sub
    ensures mask == MaskOf(names, sub)
  {
    if names != [] {
      forall i: nat | i < |names[1..]|
        ensures Bit(mask / 2, i) <==> names[1..][i] in sub
      {
        assert Bit(mask, i + 1) <==> names[i + 1] in sub;
      }
      assert Bit(mask, 0) <==> names[0] in sub;
      MaskOfBits(names[1..], mask / 2, sub);
    }
  }

  /** The subset a mask selects is the one its names have. */
  lemma SubsetOfMask(headers: Headers, sub: Headers)
    requires Submap(sub, headers)
    ensures Subset(headers, Listed(headers.Keys), MaskOf(Listed(headers.Keys), sub.Keys)) == sub
  {
    ListedAre(headers.Keys);
    MaskOfIs(Listed(headers.Keys), sub.Keys);
    var names := Listed(headers.Keys);
    var got := Subset(headers, names, MaskOf(names, sub.Keys));
    forall name
      ensures name in got <==> name in sub
    {
      if name in sub {
        assert name in names;
        var i :| 0 <= i < |names| && names[i] == name;
        assert Bit(MaskOf(names, sub.Keys), i);
      }
    }
  }

  lemma MaskOfSubset(headers: Headers, mask: nat)
    requires mask < Pow2(|Listed(headers.Keys)|)
    ensures
      var sub := Subset(headers, Listed(headers.Keys), mask);
      Submap(sub, headers) && mask == MaskOf(Listed(headers.Keys), sub.Keys)
  {
    ListedAre(headers.Keys);
    var names := Listed(headers.Keys);
    var sub := Subset(headers, names, mask);
    forall i: nat | i < |names|
      ensures Bit(mask, i) <==> names[i] in sub.Keys
    {
      assert names[i] in names;
    }
    MaskOfBits(names, mask, sub.Keys);
  }

  lemma {:induction false} SubsetKeysAre(r: Request, names: seq<string>, n: nat)
    ensures |SubsetKeys(r, names, n)| == n
    ensures forall i | 0 <= i < n :: SubsetKeys(r, names, n)[i] == KeyFor(r, Some(Subset(r.headers, names, n - i)))
  {
    if n > 0 {
      SubsetKeysAre(r, names, n - 1);
    }
  }

  /** Where the key of a matching interaction stands among the candidates of a request. */
  ghost function Place(headers: Headers, r: Request): nat {
    if r.headers == map[] then 0
    else
      var names := Listed(r.headers.Keys);
      var mask := MaskOf(names, headers.Keys);
      if mask < Pow2(|names|) then Pow2(|names|) - 1 - mask else 0
  }

  lemma MaskHasPlace(x: Interaction, r: Request)
    requires Matches(x, r) && x.request.headers != map[]
    ensures
      var names := Listed(r.headers.Keys);
      var mask := MaskOf(names, x.request.headers.Keys);
      0 < mask < Pow2(|names|) && KeyFor(r, Some(Subset(r.headers, names, mask))) == KeyOf(x)
  {
    MaskOfIs(Listed(r.headers.Keys), x.request.headers.Keys);
    SubsetOfMask(r.headers, x.request.headers);
    SomeName(r.headers, x.request.headers);
  }

  lemma MatchHasPlace(x: Interaction, r: Request)
    requires Matches(x, r)
    ensures
      var i := Place(x.request.headers, r);
      i < |Candidates(r)| && Candidates(r)[i] == KeyOf(x)
  {
    if r.headers != map[] {
      if x.request.headers == map[] {
        assert x.request.headers.Keys == {};
        NoNames(Listed(r.headers.Keys));
      } else {
        HeadedPlace(x, r);
      }
    }
  }

  /** The candidates of a request with headers: the masks from the top down, and no headers last. */
  lemma CandidatesAre(r: Request, names: seq<string>, top: nat)
    requires r.headers != map[] && names == Listed(r.headers.Keys) && top == Pow2(|names|) - 1
    ensures |Candidates(r)| == top + 1 && Candidates(r)[top] == KeyFor(r, None)
    ensures forall i | 0 <= i < top :: Candidates(r)[i] == KeyFor(r, Some(Subset(r.headers, names, top - i)))
  {
    SubsetKeysAre(r, names, top);
    assert Candidates(r) == SubsetKeys(r, names, top) + [KeyFor(r, None)];
  }

  lemma HeadedPlace(x: Interaction, r: Request)
    requires Matches(x, r) && x.request.headers != map[] && r.headers != map[]
    ensures
      var i := Place(x.request.headers, r);
      i < |Candidates(r)| && Candidates(r)[i] == KeyOf(x)
  {
    var names := Listed(r.headers.Keys);
    var top, mask := Pow2(|names|) - 1, MaskOf(names, x.request.headers.Keys);
    MaskHasPlace(x, r);
    CandidatesAre(r, names, top);
    assert Place(x.request.headers, r) == top - mask;
  }

  lemma {:induction false} NoNames(names: seq<string>)
    ensures MaskOf(names, {}) == 0
  {
    if names != [] {
      NoNames(names[1..]);
    }
  }

  lemma SomeName(headers: Headers, sub: Headers)
    requires Submap(sub, headers) && sub != map[]
    ensures MaskOf(Listed(headers.Keys), sub.Keys) > 0
  {
    ListedAre(headers.Keys);
    var name :| name in sub;
    assert name in Listed(headers.Keys);
    MaskGrows(Listed(headers.Keys), {}, sub.Keys);
  }

  lemma SubsetKeyMatches(x: Interaction, r: Request, mask: nat)
    requires mask < Pow2(|Listed(r.headers.Keys)|)
    requires KeyOf(x) == KeyFor(r, Some(Subset(r.headers, Listed(r.headers.Keys), mask)))
    ensures Matches(x, r) && mask == MaskOf(Listed(r.headers.Keys), x.request.headers.Keys)
  {
    MaskOfSubset(r.headers, mask);
  }

  lemma CandidateMatches(x: Interaction, r: Request, i: nat)
    requires i < |Candidates(r)| && Candidates(r)[i] == KeyOf(x)
    ensures Matches(x, r) && i == Place(x.request.headers, r)
  {
    if r.headers == map[] {
      assert Candidates(r) == [KeyFor(r, None)];
    } else {
      var names := Listed(r.headers.Keys);
      var top := Pow2(|names|) - 1;
      CandidatesAre(r, names, top);
      if i < top {
        SubsetKeyMatches(x, r, top - i);
      } else {
        LastMatches(x, r, names);
      }
    }
  }

  lemma LastMatches(x: Interaction, r: Request, names: seq<string>)
    requires r.headers != map[] && names == Listed(r.headers.Keys) && KeyOf(x) == KeyFor(r, None)
    ensures Matches(x, r) && Place(x.request.headers, r) == Pow2(|names|) - 1
  {
    assert x.request.headers.Keys == {};
    NoNames(names);
  }

  /** A request tries the key of an interaction exactly when it matches it. */
  lemma CandidateIff(x: Interaction, r: Request)
    ensures KeyOf(x) in Candidates(r) <==> Matches(x, r)
  {
    if Matches(x, r) {
      MatchHasPlace(x, r);
    }
    if KeyOf(x) in Candidates(r) {
      var i :| 0 <= i < |Candidates(r)| && Candidates(r)[i] == KeyOf(x);
      CandidateMatches(x, r, i);
    }
  }

  lemma SameNames(few: Headers, more: Headers)
    requires Submap(few, more) && more.Keys <= few.Keys
    ensures few == more
  {
  }

  /** Of two matching interactions the one with more headers is tried first. */
  lemma MoreHeadersFirst(x: Interaction, y: Interaction, r: Request)
    requires Matches(x, r) && Matches(y, r)
    requires Submap(x.request.headers, y.request.headers) && x.request.headers != y.request.headers
    ensures Place(y.request.headers, r) < Place(x.request.headers, r)
  {
    var few, more := x.request.headers, y.request.headers;
    ListedAre(r.headers.Keys);
    MaskOfIs(Listed(r.headers.Keys), few.Keys);
    MaskOfIs(Listed(r.headers.Keys), more.Keys);
    assert few.Keys <= more.Keys;
    if more.Keys <= few.Keys {
      SameNames(few, more);
    }
    var name :| name in more && name !in few;
    assert name in Listed(r.headers.Keys);
    MaskGrows(Listed(r.headers.Keys), few.Keys, more.Keys);
  }

  // -------------------------------------------------------- first in, first out

  /** The exact answers under a key, in order. */
  function ExactFor(answers: seq<Answer>, key: Key): seq<Interaction> {
    if answers == [] then []
    else
      var last := answers[|answers| - 1];
      ExactFor(answers[..|answers| - 1], key) + if last.Exact? && KeyOf(last.item) == key then [last.item] else []
  }

  /** The recorded interactions under a key, in order. */
  function RecordedFor(xs: seq<Interaction>, key: Key): seq<Interaction> {
    if xs == [] then []
    else
      var last := xs[|xs| - 1];
      RecordedFor(xs[..|xs| - 1], key) + if KeyOf(last) == key then [last] else []
  }

  /** Under every key, what was served and then what still waits is what was recorded, in order. */
  ghost predicate InOrder(s: Store, answers: seq<Answer>) {
    forall key :: ExactFor(answers, key) + Queue(s.entries, key) == RecordedFor(s.available, key)
  }

  ghost predicate UsedIsServed(s: Store, answers: seq<Answer>) {
    forall id :: id in s.used <==> exists i :: 0 <= i < |answers| && Serves(answers[i], id)
  }

  predicate Serves(a: Answer, id: string) {
    !a.Miss? && a.item.id == id
  }

  lemma {:induction false} FirstHitIs(entries: map<Key, seq<Interaction>>, keys: seq<Key>)
    ensures
      match FirstHit(entries, keys)
      case None => forall k | k in keys :: Queue(entries, k) == []
      case Some(k) =>
        Queue(entries, k) != [] &&
        exists i :: 0 <= i < |keys| && keys[i] == k && forall j | 0 <= j < i :: Queue(entries, keys[j]) == []
  {
    if keys != [] {
      FirstHitIs(entries, keys[1..]);
      if Queue(entries, keys[0]) != [] {
        assert keys[0] == FirstHit(entries, keys).value;
      } else if FirstHit(entries, keys[1..]).Some? {
        var rest := keys[1..];
        var i :| 0 <= i < |rest| && rest[i] == FirstHit(entries, rest).value
          && forall j | 0 <= j < i :: Queue(entries, rest[j]) == [];
        forall j | 0 <= j < i + 1
          ensures Queue(entries, keys[j]) == []
        {
          assert j > 0 ==> keys[j] == rest[j - 1];
        }
        assert keys[i + 1] == rest[i];
      }
    }
  }

  lemma SeedOneInOrder(s: Store, x: Interaction, answers: seq<Answer>)
    requires InOrder(s, answers)
    ensures InOrder(SeedOne(s, x), answers)
  {
    var s' := SeedOne(s, x);
    forall key
      ensures ExactFor(answers, key) + Queue(s'.entries, key) == RecordedFor(s'.available, key)
    {
      assert s'.available[..|s.available|] == s.available;
      assert ExactFor(answers, key) + Queue(s.entries, key) == RecordedFor(s.available, key);
    }
  }

  lemma {:induction false} SeedInOrder(s: Store, xs: seq<Interaction>, answers: seq<Answer>)
    requires InOrder(s, answers)
    ensures InOrder(Seed(s, xs), answers)
    decreases |xs|
  {
    if xs != [] {
      SeedInOrder(s, xs[..|xs| - 1], answers);
      SeedOneInOrder(Seed(s, xs[..|xs| - 1]), xs[|xs| - 1], answers);
    }
  }

  lemma {:induction false} SeedKeepsRest(s: Store, xs: seq<Interaction>)
    ensures Seed(s, xs).used == s.used && Seed(s, xs).available == s.available + xs
  {
    if xs != [] {
      SeedKeepsRest(s, xs[..|xs| - 1]);
      assert xs[..|xs| - 1] + [xs[|xs| - 1]] == xs;
    }
  }

  lemma {:induction false} RecordedHave(xs: seq<Interaction>, key: Key)
    ensures forall x :: x in RecordedFor(xs, key) <==> x in xs && KeyOf(x) == key
  {
    if xs != [] {
      var front, last := xs[..|xs| - 1], xs[|xs| - 1];
      RecordedHave(front, key);
      assert xs == front + [last];
    }
  }

  /** Every waiting interaction waits under its own key. */
  lemma QueueHas(s: Store, answers: seq<Answer>, key: Key)
    requires InOrder(s, answers)
    ensures forall x | x in Queue(s.entries, key) :: KeyOf(x) == key && x in s.available
  {
    RecordedHave(s.available, key);
    assert ExactFor(answers, key) + Queue(s.entries, key) == RecordedFor(s.available, key);
    forall x | x in Queue(s.entries, key)
      ensures x in RecordedFor(s.available, key)
    {
      assert x in ExactFor(answers, key) + Queue(s.entries, key);
    }
  }

  /** Taking the head of one queue moves it from waiting to served. */
  lemma TakeInOrder(s: Store, answers: seq<Answer>, hit: Key, s': Store)
    requires InOrder(s, answers) && Queue(s.entries, hit) != []
    requires s'.entries == s.entries[hit := Queue(s.entries, hit)[1..]] && s'.available == s.available
    ensures InOrder(s', answers + [Exact(Queue(s.entries, hit)[0])])
  {
    var x := Queue(s.entries, hit)[0];
    QueueHas(s, answers, hit);
    assert (answers + [Exact(x)])[..|answers|] == answers;
    forall key
      ensures ExactFor(answers + [Exact(x)], key) + Queue(s'.entries, key) == RecordedFor(s'.available, key)
    {
      assert ExactFor(answers, key) + Queue(s.entries, key) == RecordedFor(s.available, key);
      if key == hit {
        assert Queue(s.entries, hit) == [x] + Queue(s'.entries, hit);
      }
    }
  }

  lemma OtherInOrder(s: Store, answers: seq<Answer>, answer: Answer)
    requires InOrder(s, answers) && !answer.Exact?
    ensures InOrder(s, answers + [answer])
  {
    assert (answers + [answer])[..|answers|] == answers;
    forall key
      ensures ExactFor(answers + [answer], key) + Queue(s.entries, key) == RecordedFor(s.available, key)
    {
      assert ExactFor(answers, key) + Queue(s.entries, key) == RecordedFor(s.available, key);
    }
  }

  lemma PopInOrder(s: Store, answers: seq<Answer>, keys: seq<Key>, allowed: bool, near: Nearness)
    requires InOrder(s, answers)
    ensures
      var (s', answer) := Pop(s, keys, allowed, near);
      InOrder(s', answers + [answer])
  {
    var (s', answer) := Pop(s, keys, allowed, near);
    FirstHitIs(s.entries, keys);
    if FirstHit(s.entries, keys).Some? {
      TakeInOrder(s, answers, FirstHit(s.entries, keys).value, s');
    } else {
      OtherInOrder(s, answers, answer);
    }
  }

  /** Over every run, under every key, recorded interactions are served in the order recorded. */
  lemma {:induction false} RunInOrder(actions: seq<Action>)
    ensures InOrder(Run(actions).0, Run(actions).1)
    decreases |actions|
  {
    if actions != [] {
      var front, last := actions[..|actions| - 1], actions[|actions| - 1];
      var (s, answers) := Run(front);
      RunInOrder(front);
      match last
      case Record(xs) =>
        SeedInOrder(s, xs, answers);
        assert answers + [] == answers;
      case Ask(keys, allowed, near) => PopInOrder(s, answers, keys, allowed, near);
    }
  }

  // --------------------------------------------------- which one is served

  predicate Waiting(s: Store, x: Interaction) {
    x in Queue(s.entries, KeyOf(x))
  }

  lemma HitIsHead(s: Store, answers: seq<Answer>, r: Request, allowed: bool, near: Nearness)
    requires InOrder(s, answers) && FirstHit(s.entries, Candidates(r)).Some?
    ensures
      var answer := Pop(s, Candidates(r), allowed, near).1;
      && answer.Exact? && Matches(answer.item, r) && Waiting(s, answer.item)
      && Queue(s.entries, KeyOf(answer.item))[0] == answer.item
      && forall j | 0 <= j < Place(answer.item.request.headers, r) && j < |Candidates(r)| ::
           Queue(s.entries, Candidates(r)[j]) == []
  {
    FirstHitIs(s.entries, Candidates(r));
    var hit := FirstHit(s.entries, Candidates(r)).value;
    var i :| 0 <= i < |Candidates(r)| && Candidates(r)[i] == hit
      && forall j | 0 <= j < i :: Queue(s.entries, Candidates(r)[j]) == [];
    QueueHas(s, answers, hit);
    CandidateMatches(Queue(s.entries, hit)[0], r, i);
  }

  /** A request is answered exactly if and only if a waiting interaction matches it; the answer
      matches, and nothing that waits matches with more headers. */
  lemma ExactIff(s: Store, answers: seq<Answer>, r: Request, allowed: bool, near: Nearness)
    requires InOrder(s, answers)
    ensures
      var answer := Pop(s, Candidates(r), allowed, near).1;
      && (answer.Exact? <==> exists x :: Waiting(s, x) && Matches(x, r))
      && (answer.Exact? ==>
            && Matches(answer.item, r) && Waiting(s, answer.item)
            && forall y | Waiting(s, y) && Matches(y, r) && y.request.headers != answer.item.request.headers ::
                 !Submap(answer.item.request.headers, y.request.headers))
  {
    FirstHitIs(s.entries, Candidates(r));
    forall x | Waiting(s, x) && Matches(x, r)
      ensures FirstHit(s.entries, Candidates(r)).Some?
    {
      CandidateIff(x, r);
    }
    if FirstHit(s.entries, Candidates(r)).Some? {
      HitIsHead(s, answers, r, allowed, near);
      var x := Pop(s, Candidates(r), allowed, near).1.item;
      forall y | Waiting(s, y) && Matches(y, r) && y.request.headers != x.request.headers
        ensures !Submap(x.request.headers, y.request.headers)
      {
        if Submap(x.request.headers, y.request.headers) {
          MoreHeadersFirst(x, y, r);
          MatchHasPlace(y, r);
        }
      }
    }
  }

  // ------------------------------------------------------- their own requests

  function OwnKey(r: Request): Key {
    KeyFor(r, if r.headers == map[] then None else Some(r.headers))
  }

  function TimesAsked(rs: seq<Request>, key: Key): nat {
    if rs == [] then 0 else TimesAsked(rs[..|rs| - 1], key) + if OwnKey(rs[|rs| - 1]) == key then 1 else 0
  }

  ghost predicate Asks(a: Action, r: Request) {
    a.Ask? && a.keys == Candidates(r)
  }

  lemma OwnKeyFirst(r: Request)
    ensures Candidates(r) != [] && Candidates(r)[0] == OwnKey(r)
  {
    var names := Listed(r.headers.Keys);
    SubsetOfMask(r.headers, r.headers);
    MaskOfIs(names, r.headers.Keys);
    MatchHasPlace(Interaction("", r, Null), r);
    if r.headers != map[] {
      ListedAre(r.headers.Keys);
      FullMask(names, r.headers.Keys);
    }
  }

  lemma {:induction false} FullMask(names: seq<string>, all: set<string>)
    requires forall name | name in names :: name in all
    ensures MaskOf(names, all) == Pow2(|names|) - 1
  {
    if names != [] {
      FullMask(names[1..], all);
    }
  }

  /** Every request so far was answered exactly, under its own key. */
  ghost predicate AllOwn(answers: seq<Answer>, rs: seq<Request>) {
    |answers| == |rs| && forall i | 0 <= i < |rs| :: answers[i].Exact? && KeyOf(answers[i].item) == OwnKey(rs[i])
  }

  lemma {:induction false} OwnCount(answers: seq<Answer>, rs: seq<Request>, key: Key)
    requires AllOwn(answers, rs)
    ensures |ExactFor(answers, key)| == TimesAsked(rs, key)
  {
    if rs != [] {
      OwnCount(answers[..|rs| - 1], rs[..|rs| - 1], key);
    }
  }

  /** The request's own queue is not empty, so its head is the answer. */
  lemma OwnPop(s: Store, answers: seq<Answer>, rs: seq<Request>, r: Request, allowed: bool, near: Nearness)
    requires InOrder(s, answers) && AllOwn(answers, rs)
    requires TimesAsked(rs, OwnKey(r)) < |RecordedFor(s.available, OwnKey(r))|
    ensures Pop(s, Candidates(r), allowed, near).1 ==
            Exact(RecordedFor(s.available, OwnKey(r))[TimesAsked(rs, OwnKey(r))])
  {
    var key := OwnKey(r);
    OwnKeyFirst(r);
    OwnCount(answers, rs, key);
    assert ExactFor(answers, key) + Queue(s.entries, key) == RecordedFor(s.available, key);
    assert Queue(s.entries, key) != [];
    assert FirstHit(s.entries, Candidates(r)) == Some(key);
  }

  /** The answer to a request asked after others: the next recording under its own key. */
  ghost predicate OwnAnswer(xs: seq<Interaction>, before: seq<Request>, r: Request, answer: Answer) {
    && TimesAsked(before, OwnKey(r)) < |RecordedFor(xs, OwnKey(r))|
    && answer == Exact(RecordedFor(xs, OwnKey(r))[TimesAsked(before, OwnKey(r))])
  }

  ghost predicate OwnAnswers(xs: seq<Interaction>, rs: seq<Request>, answers: seq<Answer>) {
    |answers| == |rs| && forall i | 0 <= i < |rs| :: OwnAnswer(xs, rs[..i], rs[i], answers[i])
  }

  lemma OwnStep(s: Store, answers: seq<Answer>, rs: seq<Request>, r: Request, a: Action)
    requires InOrder(s, answers) && AllOwn(answers, rs) && Asks(a, r)
    requires TimesAsked(rs, OwnKey(r)) < |RecordedFor(s.available, OwnKey(r))|
    ensures
      var (s', more) := Step(s, a);
      && s'.available == s.available && |more| == 1 && OwnAnswer(s.available, rs, r, more[0])
      && AllOwn(answers + more, rs + [r])
  {
    OwnPop(s, answers, rs, r, a.nearestAllowed, a.near);
    RecordedHave(s.available, OwnKey(r));
    var x := RecordedFor(s.available, OwnKey(r))[TimesAsked(rs, OwnKey(r))];
    assert x in RecordedFor(s.available, OwnKey(r));
  }

  lemma OwnAnswersStep(xs: seq<Interaction>, rs: seq<Request>, answers: seq<Answer>, r: Request, answer: Answer)
    requires OwnAnswers(xs, rs, answers) && OwnAnswer(xs, rs, r, answer)
    ensures OwnAnswers(xs, rs + [r], answers + [answer])
  {
    var rs' := rs + [r];
    forall i | 0 <= i < |rs'|
      ensures OwnAnswer(xs, rs'[..i], rs'[i], (answers + [answer])[i])
    {
      assert rs'[..i] == rs[..i];
    }
  }

  ghost predicate OwnRun(xs: seq<Interaction>, rs: seq<Request>, actions: seq<Action>) {
    var (s, answers) := Run(actions);
    s.available == xs && AllOwn(answers, rs) && OwnAnswers(xs, rs, answers)
  }

  lemma OwnRunStep(xs: seq<Interaction>, rs: seq<Request>, r: Request, actions: seq<Action>, a: Action)
    requires OwnRun(xs, rs, actions) && Asks(a, r)
    requires TimesAsked(rs, OwnKey(r)) < |RecordedFor(xs, OwnKey(r))|
    ensures OwnRun(xs, rs + [r], actions + [a])
  {
    var (s, answers) := Run(actions);
    RunInOrder(actions);
    OwnStep(s, answers, rs, r, a);
    var more := Step(s, a).1;
    assert more == [more[0]];
    OwnAnswersStep(xs, rs, answers, r, more[0]);
    RunSnoc(actions, a);
  }

  lemma PutBack<T>(a: seq<T>, s: seq<T>)
    requires s != []
    ensures a + s[..|s| - 1] + [s[|s| - 1]] == a + s
  {
    assert s[..|s| - 1] + [s[|s| - 1]] == s;
  }

  lemma OwnRunStart(xs: seq<Interaction>)
    ensures OwnRun(xs, [], [Record(xs)])
  {
    SeedKeepsRest(EMPTY, xs);
    RunSnoc([], Record(xs));
    assert [] + [Record(xs)] == [Record(xs)];
  }

  /** Requests asked no more often than they were recorded get the recordings under their own key,
      one after the other, whatever else is asked in between. */
  lemma {:induction false} OwnRequests(xs: seq<Interaction>, rs: seq<Request>, asks: seq<Action>)
    requires |asks| == |rs| && forall i | 0 <= i < |rs| :: Asks(asks[i], rs[i])
    requires forall key :: TimesAsked(rs, key) <= |RecordedFor(xs, key)|
    ensures OwnRun(xs, rs, [Record(xs)] + asks)
    decreases |rs|
  {
    if rs == [] {
      OwnRunStart(xs);
      assert [Record(xs)] == [Record(xs)] + asks;
    } else {
      var n := |rs| - 1;
      var front, r := rs[..n], rs[n];
      assert front + [r] == rs;
      assert TimesAsked(rs, OwnKey(r)) <= |RecordedFor(xs, OwnKey(r))|;
      forall key
        ensures TimesAsked(front, key) <= |RecordedFor(xs, key)|
      {
        assert TimesAsked(rs, key) <= |RecordedFor(xs, key)|;
      }
      OwnRequests(xs, front, asks[..n]);
      OwnRunStep(xs, front, r, [Record(xs)] + asks[..n], asks[n]);
      PutBack([Record(xs)], asks);
    }
  }

  function Requests(xs: seq<Interaction>): seq<Request> {
    seq(|xs|, i requires 0 <= i < |xs| => xs[i].request)
  }

  lemma {:induction false} OwnTimes(xs: seq<Interaction>, key: Key)
    ensures TimesAsked(Requests(xs), key) == |RecordedFor(xs, key)|
  {
    if xs != [] {
      assert Requests(xs)[..|xs| - 1] == Requests(xs[..|xs| - 1]);
      OwnTimes(xs[..|xs| - 1], key);
    }
  }

  lemma {:induction false} RecordedAt(xs: seq<Interaction>, i: nat)
    requires i < |xs|
    ensures
      var key := KeyOf(xs[i]);
      TimesAsked(Requests(xs[..i]), key) < |RecordedFor(xs, key)| &&
      RecordedFor(xs, key)[TimesAsked(Requests(xs[..i]), key)] == xs[i]
  {
    var key := KeyOf(xs[i]);
    if i == |xs| - 1 {
      OwnTimes(xs[..i], key);
    } else {
      RecordedAt(xs[..|xs| - 1], i);
      assert xs[..|xs| - 1][..i] == xs[..i];
    }
  }

  lemma OwnIsRecorded(xs: seq<Interaction>, answers: seq<Answer>, i: nat)
    requires OwnAnswers(xs, Requests(xs), answers) && i < |xs|
    ensures answers[i] == Exact(xs[i])
  {
    var rs := Requests(xs);
    assert OwnAnswer(xs, rs[..i], rs[i], answers[i]);
    assert rs[..i] == Requests(xs[..i]);
    RecordedAt(xs, i);
  }

  /** Recorded interactions answer their own requests, asked in the order recorded: each request
      gets exactly the interaction it came from. */
  lemma RecordingsReplay(xs: seq<Interaction>, asks: seq<Action>)
    requires |asks| == |xs| && forall i | 0 <= i < |xs| :: Asks(asks[i], Requests(xs)[i])
    ensures
      var answers := Run([Record(xs)] + asks).1;
      |answers| == |xs| && forall i | 0 <= i < |xs| :: answers[i] == Exact(xs[i])
  {
    forall key
      ensures TimesAsked(Requests(xs), key) <= |RecordedFor(xs, key)|
    {
      OwnTimes(xs, key);
    }
    OwnRequests(xs, Requests(xs), asks);
    var answers := Run([Record(xs)] + asks).1;
    forall i | 0 <= i < |xs|
      ensures answers[i] == Exact(xs[i])
    {
      OwnIsRecorded(xs, answers, i);
    }
  }

  // ---------------------------------------------------- how often one is served

  ghost predicate DistinctIds(xs: seq<Interaction>) {
    forall i, j | 0 <= i < j < |xs| :: xs[i].id != xs[j].id
  }

  ghost predicate AnswersRecorded(s: Store, answers: seq<Answer>) {
    forall i | 0 <= i < |answers| && !answers[i].Miss? :: answers[i].item in s.available
  }

  /** An interaction answers a second time only when the first was a nearest match and the second
      an exact one. */
  ghost predicate OnceExceptAfterNearest(answers: seq<Answer>) {
    forall i, j | 0 <= i < j < |answers| && !answers[i].Miss? && !answers[j].Miss?
      && answers[i].item.id == answers[j].item.id :: answers[i].Nearest? && answers[j].Exact?
  }

  ghost predicate Eligible(s: Store, near: Nearness, i: nat)
    requires i < |s.available|
  {
    s.available[i].id !in s.used && near(s.available[i]).Some?
  }

  /** The best candidate is the first of the highest score among those not used. */
  lemma {:induction false} BestIs(s: Store, near: Nearness, n: nat)
    requires n <= |s.available|
    ensures
      match Best(s, near, n)
      case None => forall i | 0 <= i < n :: !Eligible(s, near, i)
      case Some((x, score)) =>
        && near(x) == Some(score) && x.id !in s.used
        && (forall j | 0 <= j < n && Eligible(s, near, j) :: near(s.available[j]).value <= score)
        && exists i ::
             && 0 <= i < n && s.available[i] == x && Eligible(s, near, i)
             && forall j | 0 <= j < i && Eligible(s, near, j) :: near(s.available[j]).value < score
  {
    if n > 0 {
      BestIs(s, near, n - 1);
      var best, now := Best(s, near, n - 1), Best(s, near, n);
      if best.Some? && now == best {
        var i :| 0 <= i < n - 1 && s.available[i] == best.value.0 && Eligible(s, near, i)
          && (forall j | 0 <= j < i && Eligible(s, near, j) :: near(s.available[j]).value < best.value.1);
        assert forall j | 0 <= j < n && Eligible(s, near, j) :: near(s.available[j]).value <= best.value.1;
      } else if now.Some? {
        assert Eligible(s, near, n - 1);
      }
    }
  }

  /** A request is answered by the nearest tier exactly when nothing waits under its keys, the tier
      is allowed and some unused recording is near enough. */
  lemma NearestIff(s: Store, keys: seq<Key>, allowed: bool, near: Nearness)
    ensures
      Pop(s, keys, allowed, near).1.Nearest? <==>
      && (forall k | k in keys :: Queue(s.entries, k) == [])
      && allowed
      && exists i :: 0 <= i < |s.available| && Eligible(s, near, i) && near(s.available[i]).value >= 0.35
  {
    FirstHitIs(s.entries, keys);
    BestIs(s, near, |s.available|);
  }

  lemma {:induction false} ExactHas(answers: seq<Answer>, key: Key, i: nat)
    requires i < |answers| && answers[i].Exact? && KeyOf(answers[i].item) == key
    ensures answers[i].item in ExactFor(answers, key)
  {
    if i < |answers| - 1 {
      ExactHas(answers[..|answers| - 1], key, i);
    }
  }

  lemma {:induction false} RecordedDistinct(xs: seq<Interaction>, key: Key)
    requires DistinctIds(xs)
    ensures DistinctIds(RecordedFor(xs, key))
  {
    if xs != [] {
      var front := xs[..|xs| - 1];
      RecordedDistinct(front, key);
      RecordedHave(front, key);
      var before := RecordedFor(front, key);
      forall i | 0 <= i < |before|
        ensures before[i].id != xs[|xs| - 1].id
      {
        assert before[i] in front;
        var k :| 0 <= k < |front| && front[k] == before[i];
        assert xs[k].id != xs[|xs| - 1].id;
      }
    }
  }

  lemma SameId(xs: seq<Interaction>, x: Interaction, y: Interaction)
    requires DistinctIds(xs) && x in xs && y in xs && x.id == y.id
    ensures x == y
  {
    var i :| 0 <= i < |xs| && xs[i] == x;
    var j :| 0 <= j < |xs| && xs[j] == y;
  }

  lemma ApartIds(xs: seq<Interaction>, ys: seq<Interaction>, x: Interaction)
    requires DistinctIds(xs + ys) && x in ys
    ensures x !in xs
  {
    var n :| 0 <= n < |ys| && ys[n] == x;
    forall m | 0 <= m < |xs|
      ensures xs[m] != x
    {
      assert (xs + ys)[m].id != (xs + ys)[|xs| + n].id;
    }
  }

  /** What waits was not answered exactly before. */
  lemma WaitingIsNew(s: Store, answers: seq<Answer>, x: Interaction, i: nat)
    requires InOrder(s, answers) && AnswersRecorded(s, answers) && DistinctIds(s.available)
    requires Waiting(s, x) && i < |answers| && answers[i].Exact?
    ensures answers[i].item.id != x.id
  {
    if answers[i].item.id == x.id {
      var key := KeyOf(x);
      QueueHas(s, answers, key);
      SameId(s.available, answers[i].item, x);
      ExactHas(answers, key, i);
      RecordedDistinct(s.available, key);
      var served, queue := ExactFor(answers, key), Queue(s.entries, key);
      assert served + queue == RecordedFor(s.available, key);
      ApartIds(served, queue, x);
    }
  }

  lemma PopOnce(s: Store, answers: seq<Answer>, keys: seq<Key>, allowed: bool, near: Nearness)
    requires InOrder(s, answers) && UsedIsServed(s, answers) && AnswersRecorded(s, answers)
    requires DistinctIds(s.available) && OnceExceptAfterNearest(answers)
    ensures
      var (s', answer) := Pop(s, keys, allowed, near);
      AnswersRecorded(s', answers + [answer]) && OnceExceptAfterNearest(answers + [answer])
  {
    var answer := Pop(s, keys, allowed, near).1;
    FirstHitIs(s.entries, keys);
    BestIs(s, near, |s.available|);
    if answer.Exact? {
      var hit := FirstHit(s.entries, keys).value;
      QueueHas(s, answers, hit);
      assert Waiting(s, answer.item);
      forall i | 0 <= i < |answers| && Serves(answers[i], answer.item.id)
        ensures answers[i].Nearest?
      {
        if answers[i].Exact? {
          WaitingIsNew(s, answers, answer.item, i);
        }
      }
    } else if answer.Nearest? {
      assert forall i | 0 <= i < |answers| :: !Serves(answers[i], answer.item.id);
    }
  }

  lemma PopUsed(s: Store, answers: seq<Answer>, keys: seq<Key>, allowed: bool, near: Nearness)
    requires UsedIsServed(s, answers)
    ensures
      var (s', answer) := Pop(s, keys, allowed, near);
      UsedIsServed(s', answers + [answer])
  {
    var (s', answer) := Pop(s, keys, allowed, near);
    FirstHitIs(s.entries, keys);
    var answers' := answers + [answer];
    forall id
      ensures id in s'.used <==> exists i :: 0 <= i < |answers'| && Serves(answers'[i], id)
    {
      if Serves(answer, id) {
        assert answers'[|answers|] == answer;
      }
      if id in s.used {
        var i :| 0 <= i < |answers| && Serves(answers[i], id);
        assert Serves(answers'[i], id);
      }
    }
  }

  /** Over every run the used ids are the ids served. */
  lemma {:induction false} RunUsed(actions: seq<Action>)
    ensures UsedIsServed(Run(actions).0, Run(actions).1)
    decreases |actions|
  {
    if actions != [] {
      var front, last := actions[..|actions| - 1], actions[|actions| - 1];
      var (s, answers) := Run(front);
      RunUsed(front);
      match last
      case Record(xs) =>
        SeedKeepsRest(s, xs);
        assert answers + [] == answers;
      case Ask(keys, allowed, near) => PopUsed(s, answers, keys, allowed, near);
    }
  }

  /** Over every run of recordings with distinct ids and any requests. */
  lemma {:induction false} RunOnce(actions: seq<Action>)
    requires DistinctIds(Run(actions).0.available)
    ensures AnswersRecorded(Run(actions).0, Run(actions).1)
    ensures OnceExceptAfterNearest(Run(actions).1)
    decreases |actions|
  {
    if actions != [] {
      var front, last := actions[..|actions| - 1], actions[|actions| - 1];
      var (s, answers) := Run(front);
      RunInOrder(front);
      RunUsed(front);
      match last
      case Record(xs) =>
        SeedKeepsRest(s, xs);
        EarlierDistinct(s.available, xs);
        RunOnce(front);
        assert answers + [] == answers;
      case Ask(keys, allowed, near) =>
        RunOnce(front);
        PopOnce(s, answers, keys, allowed, near);
    }
  }

  lemma EarlierDistinct(xs: seq<Interaction>, ys: seq<Interaction>)
    requires DistinctIds(xs + ys)
    ensures DistinctIds(xs)
  {
    forall i, j | 0 <= i < j < |xs|
      ensures xs[i].id != xs[j].id
    {
      assert (xs + ys)[i].id != (xs + ys)[j].id;
    }
  }

  ghost predicate ExactOnly(actions: seq<Action>) {
    forall i | 0 <= i < |actions| && actions[i].Ask? :: !actions[i].nearestAllowed
  }

  lemma {:induction false} NoNearest(actions: seq<Action>)
    requires ExactOnly(actions)
    ensures forall i | 0 <= i < |Run(actions).1| :: !Run(actions).1[i].Nearest?
    decreases |actions|
  {
    if actions != [] {
      NoNearest(actions[..|actions| - 1]);
    }
  }

  /** Where the nearest tier is not allowed, no interaction is served twice. */
  lemma ServedAtMostOnce(actions: seq<Action>)
    requires DistinctIds(Run(actions).0.available) && ExactOnly(actions)
    ensures
      var answers := Run(actions).1;
      forall i, j | 0 <= i < j < |answers| && answers[i].Exact? && answers[j].Exact? ::
        answers[i].item.id != answers[j].item.id
  {
    RunOnce(actions);
    NoNearest(actions);
  }

  /** A request is answered with something already served exactly if the head of the first queue it
      finds is marked used. */
  lemma ServesAgainIff(s: Store, answers: seq<Answer>, keys: seq<Key>, allowed: bool, near: Nearness)
    requires UsedIsServed(s, answers)
    ensures
      var answer := Pop(s, keys, allowed, near).1;
      var hit := FirstHit(s.entries, keys);
      (exists i :: 0 <= i < |answers| && !answer.Miss? && Serves(answers[i], answer.item.id)) <==>
      hit.Some? && Queue(s.entries, hit.value) != [] && Queue(s.entries, hit.value)[0].id in s.used
  {
    FirstHitIs(s.entries, keys);
    BestIs(s, near, |s.available|);
  }

  /** Scores between requests to one address whose bodies have one field and which have neither query
      nor headers: 0.5 for equal fields, 0.35 and 0.15 for the query and the headers, 0.15 more for
      having no query, and at most 1. */
  function NearTo(r: Request): Nearness {
    (x: Interaction) =>
      if x.request.verb == r.verb && x.request.url == r.url then Some(if x.request.body == r.body then 1.0 else 0.65)
      else None
  }

  const TOLD := Request("POST", "https://api.openai.com/v1/responses", Obj(map["input" := Str("a")]), map[])
  const ASKED := TOLD.(body := Obj(map["input" := Str("b")]))
  const SAVED := Interaction("int_1", TOLD, Null)

  lemma AskedDiffers()
    ensures TOLD.body != ASKED.body
  {
    assert TOLD.body.fields["input"] != ASKED.body.fields["input"];
  }

  const SEEDED := SeedOne(EMPTY, SAVED)

  lemma SavedSeeded()
    ensures Run([Record([SAVED])]) == (SEEDED, [])
  {
    assert [SAVED][..0] == [] && Seed(EMPTY, [SAVED]) == SEEDED;
    var a := Record([SAVED]);
    assert [a][..0] == [] && Run([]) == (EMPTY, []);
    assert [SAVED][0] == SAVED && Seed(EMPTY, []) == EMPTY;
    assert Step(EMPTY, a) == (SEEDED, []);
    var none: seq<Answer> := [];
    assert none + none == none;
  }

  lemma AskedNearest()
    ensures Pop(SEEDED, Candidates(ASKED), true, NearTo(ASKED)) == (SEEDED.(used := {SAVED.id}), Nearest(SAVED, 0.65))
  {
    AskedDiffers();
    assert Candidates(ASKED) == [KeyFor(ASKED, None)];
    assert FirstHit(SEEDED.entries, [KeyFor(ASKED, None)]) == None;
    assert Best(SEEDED, NearTo(ASKED), 1) == Some((SAVED, 0.65));
    assert |SEEDED.available| == 1 && SEEDED.used + {SAVED.id} == {SAVED.id};
  }

  lemma ToldExact(s: Store)
    requires s == SEEDED.(used := {SAVED.id})
    ensures Pop(s, Candidates(TOLD), true, NearTo(TOLD)).1 == Exact(SAVED)
  {
    assert Candidates(TOLD) == [KeyFor(TOLD, None)];
    assert FirstHit(s.entries, [KeyFor(TOLD, None)]) == Some(KeyOf(SAVED));
  }

  /** A nearest match stays in its queue, so its own request gets it once more. */
  lemma NearestServedTwice()
    ensures Run([
              Record([SAVED]), Ask(Candidates(ASKED), true, NearTo(ASKED)),
              Ask(Candidates(TOLD), true, NearTo(TOLD))]).1
            == [Nearest(SAVED, 0.65), Exact(SAVED)]
  {
    var a, b := Record([SAVED]), Ask(Candidates(ASKED), true, NearTo(ASKED));
    var c := Ask(Candidates(TOLD), true, NearTo(TOLD));
    SavedSeeded();
    AskedNearest();
    ToldExact(SEEDED.(used := {SAVED.id}));
    RunSnoc([a], b);
    RunSnoc([a, b], c);
    assert [a] + [b] == [a, b] && [a, b] + [c] == [a, b, c];
  }

  lemma RunSnoc(actions: seq<Action>, a: Action)
    ensures
      var (s, answers) := Run(actions);
      var (s', more) := Step(s, a);
      Run(actions + [a]) == (s', answers + more)
  {
    assert (actions + [a])[..|actions|] == actions;
  }
}
