/** Replaying recorded calls: every recorded interaction waits in the queue of one key; a request
    tries the keys of its header subsets from the fullest down, then the key without headers.
    Method, url, body and headers are the normalised ones, and the JSON text of a key payload is
    represented by the payload itself. */
module Replay {
  import opened Json
  import opened KeyOrder
  import opened Results

  type Headers = map<string, seq<string>>

  datatype Request = Request(verb: string, url: string, body: Json, headers: Headers)

  datatype Key = Key(verb: string, url: string, body: Json, headers: Option<Headers>)

  datatype Interaction = Interaction(id: string, request: Request, response: Json)

  datatype Store = Store(entries: map<Key, seq<Interaction>>, available: seq<Interaction>, used: set<string>)

  /** How near a recorded interaction is to a request: None when it is not compatible. */
  type Nearness = Interaction -> Option<real>

  datatype Answer = Exact(item: Interaction) | Nearest(item: Interaction, score: real) | Miss

  const MINIMUM_SCORE := 0.35

  // ------------------------------------------------------------------- keys

  function KeyFor(r: Request, headers: Option<Headers>): Key {
    Key(r.verb, r.url, r.body, headers)
  }

  /** The one key of a recorded interaction. */
  function KeyOf(x: Interaction): Key {
    KeyFor(x.request, if x.request.headers == map[] then None else Some(x.request.headers))
  }

  function Pow2(n: nat): (r: nat)
    ensures r >= 1
  {
    if n == 0 then 1 else 2 * Pow2(n - 1)
  }

  // mask & (1 << i)
  predicate Bit(mask: nat, i: nat) {
    if i == 0 then mask % 2 == 1 else Bit(mask / 2, i - 1)
  }

  /** The headers whose bit is set. */
  ghost function Subset(headers: Headers, names: seq<string>, mask: nat): Headers {
    map name | name in headers && exists i :: 0 <= i < |names| && names[i] == name && Bit(mask, i) :: headers[name]
  }

  /** The keys of the subsets with masks n, ..., 1. */
  ghost function SubsetKeys(r: Request, names: seq<string>, n: nat): (keys: seq<Key>)
    ensures |keys| == n
  {
    if n == 0 then [] else [KeyFor(r, Some(Subset(r.headers, names, n)))] + SubsetKeys(r, names, n - 1)
  }

  ghost function Candidates(r: Request): seq<Key> {
    if r.headers == map[] then [KeyFor(r, None)]
    else
      var names := Listed(r.headers.Keys);
      SubsetKeys(r, names, Pow2(|names|) - 1) + [KeyFor(r, None)]
  }

  // ------------------------------------------------------------------ store

  const EMPTY := Store(map[], [], {})

  function Queue(entries: map<Key, seq<Interaction>>, key: Key): seq<Interaction> {
    if key in entries then entries[key] else []
  }

  function SeedOne(s: Store, x: Interaction): Store {
    s.(entries := s.entries[KeyOf(x) := Queue(s.entries, KeyOf(x)) + [x]], available := s.available + [x])
  }

  function Seed(s: Store, xs: seq<Interaction>): Store {
    if xs == [] then s else SeedOne(Seed(s, xs[..|xs| - 1]), xs[|xs| - 1])
  }

  /** The first key whose queue is not empty. */
  function FirstHit(entries: map<Key, seq<Interaction>>, keys: seq<Key>): Option<Key> {
    if keys == [] then None
    else if Queue(entries, keys[0]) != [] then Some(keys[0])
    else FirstHit(entries, keys[1..])
  }

  /** The first best of the first n recorded interactions that are not used. */
  function Best(s: Store, near: Nearness, n: nat): Option<(Interaction, real)>
    requires n <= |s.available|
  {
    if n == 0 then None
    else
      var best, x := Best(s, near, n - 1), s.available[n - 1];
      if x.id in s.used || near(x).None? then best
      else if best.None? || near(x).value > best.value.1 then Some((x, near(x).value))
      else best
  }

  function Pop(s: Store, keys: seq<Key>, nearestAllowed: bool, near: Nearness): (Store, Answer) {
    var hit := FirstHit(s.entries, keys);
    if hit.Some? then
      var queue := Queue(s.entries, hit.value);
      if queue == [] then (s, Miss)
      else (s.(entries := s.entries[hit.value := queue[1..]], used := s.used + {queue[0].id}), Exact(queue[0]))
    else
      var best := Best(s, near, |s.available|);
      if nearestAllowed && best.Some? && best.value.1 >= MINIMUM_SCORE then
        (s.(used := s.used + {best.value.0.id}), Nearest(best.value.0, best.value.1))
      else (s, Miss)
  }

  // ------------------------------------------------------------------- runs

  datatype Action =
    | Record(xs: seq<Interaction>)
    | Ask(keys: seq<Key>, nearestAllowed: bool, near: Nearness)

  function Step(s: Store, a: Action): (Store, seq<Answer>) {
    match a
    case Record(xs) => (Seed(s, xs), [])
    case Ask(keys, nearestAllowed, near) =>
      var (s', answer) := Pop(s, keys, nearestAllowed, near);
      (s', [answer])
  }

  /** The store and the answers given after a sequence of actions. */
  function Run(actions: seq<Action>): (Store, seq<Answer>) {
    if actions == [] then (EMPTY, [])
    else
      var (s, answers) := Run(actions[..|actions| - 1]);
      var (s', more) := Step(s, actions[|actions| - 1]);
      (s', answers + more)
  }
}
